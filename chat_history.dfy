/**
 * The chat-history page (src/pages/chat/ChatHistory.jsx): the normalisation
 * of fetched records into messages, and the guards of its loading effect.
 * The fetch itself (`getMessages` of src/api/report.js, which that file does
 * not define) is replaced by its outcome.
 */
module ChatHistory {
  import opened Wrappers
  import opened JsText

  const HomePath: string := "/"
  const FallbackIdPrefix: string := "msg-"

  /** A fetched record's fields, each possibly missing or `null`. */
  datatype Item = Item(underscoreId: Field<string>, id: Field<string>, role: Field<string>, content: Field<string>)

  datatype HistoryMessage = HistoryMessage(id: string, role: string, content: string)

  /** `item._id ?? item.id ?? \`msg-${index}\``. */
  function MessageId(item: Item, index: nat): (r: string)
    ensures item.underscoreId.Value? ==> r == item.underscoreId.v
    ensures !item.underscoreId.Value? && item.id.Value? ==> r == item.id.v
    ensures !item.underscoreId.Value? && !item.id.Value? ==> r == FallbackIdPrefix + NatToString(index)
  {
    item.underscoreId.Coalesce(item.id.Coalesce(FallbackIdPrefix + NatToString(index)))
  }

  /** One record as a message: role defaults to `'user'` and content to `''`. */
  function NormalizeItem(item: Item, index: nat): HistoryMessage {
    HistoryMessage(MessageId(item, index), item.role.Coalesce("user"), item.content.Coalesce(""))
  }

  /** `data.map((item, index) => …)`. */
  function Normalize(data: seq<Item>): (r: seq<HistoryMessage>)
    ensures |r| == |data|
  {
    seq(|data|, i requires 0 <= i < |data| => NormalizeItem(data[i], i))
  }

  /**
   * The mapping keeps length and order; each message takes its record's
   * values, with the defaults in place of missing ones.
   */
  lemma NormalizeSpec(data: seq<Item>, i: nat)
    requires i < |data|
    ensures var m := Normalize(data)[i];
      m.role == (if data[i].role.Value? then data[i].role.v else "user")
      && m.content == (if data[i].content.Value? then data[i].content.v else "")
      && m.id == MessageId(data[i], i)
  {
  }

  /** Records without either id get pairwise distinct fallback ids. */
  lemma FallbackIdsDistinct(data: seq<Item>, i: nat, j: nat)
    requires i < j < |data|
    requires !data[i].underscoreId.Value? && !data[i].id.Value?
    requires !data[j].underscoreId.Value? && !data[j].id.Value?
    ensures Normalize(data)[i].id != Normalize(data)[j].id
  {
    var a, b := NatToString(i), NatToString(j);
    NatToStringValue(i);
    NatToStringValue(j);
    assert (FallbackIdPrefix + a)[|FallbackIdPrefix|..] == a;
    assert (FallbackIdPrefix + b)[|FallbackIdPrefix|..] == b;
  }

  /** What the fetch ended with: data (`None` when it is not an array), or an error. */
  datatype FetchResult = Data(items: Option<seq<Item>>) | FetchError

  /**
   * The page's state. Each effect run that starts a fetch has its own
   * `cancelled` flag, captured by that run's closures; `cancelled[k]` is the
   * flag of the k-th such run, in order.
   */
  class HistoryPage {
    var messages: seq<HistoryMessage>
    var loading: bool
    var cancelled: seq<bool>

    constructor()
      ensures messages == [] && !loading && cancelled == []
    {
      messages, loading, cancelled := [], false, [];
    }

    /**
     * The effect: a missing `reportId` sends the visitor home and a missing
     * database does nothing; otherwise a new run with a fresh, clear flag
     * starts loading and requests the messages of the report.
     */
    method Effect(reportId: Option<string>, dbPresent: bool) returns (navigateTo: Option<string>, fetchFor: Option<string>, run: Option<nat>)
      modifies this
      ensures reportId.None? || reportId.value == "" ==>
        navigateTo == Some(HomePath) && fetchFor.None? && run.None? && loading == old(loading) && cancelled == old(cancelled)
      ensures reportId.Some? && reportId.value != "" && !dbPresent ==>
        navigateTo.None? && fetchFor.None? && run.None? && loading == old(loading) && cancelled == old(cancelled)
      ensures reportId.Some? && reportId.value != "" && dbPresent ==>
        navigateTo.None? && fetchFor == reportId && loading
        && run == Some(|old(cancelled)|) && cancelled == old(cancelled) + [false]
      ensures messages == old(messages)
    {
      navigateTo, fetchFor, run := None, None, None;
      if reportId.None? || reportId.value == "" || !dbPresent {
        if reportId.None? || reportId.value == "" {
          navigateTo := Some(HomePath);
        }
        return;
      }
      run := Some(|cancelled|);
      cancelled := cancelled + [false];
      loading := true;
      fetchFor := reportId;
    }

    /** The cleanup a fetching run returns: it sets that run's flag only. */
    method Cleanup(run: nat)
      requires run < |cancelled|
      modifies this
      ensures cancelled == old(cancelled)[run := true]
      ensures messages == old(messages) && loading == old(loading)
    {
      cancelled := cancelled[run := true];
    }

    /**
     * The fetch of a run settles: once that run is cleaned up nothing changes;
     * otherwise an array replaces the messages and loading ends.
     */
    method Settle(run: nat, result: FetchResult)
      requires run < |cancelled|
      modifies this
      ensures old(cancelled[run]) ==> messages == old(messages) && loading == old(loading)
      ensures !old(cancelled[run]) ==> !loading
      ensures !old(cancelled[run]) && result.Data? && result.items.Some? ==> messages == Normalize(result.items.value)
      ensures !old(cancelled[run]) && (result.FetchError? || result.items.None?) ==> messages == old(messages)
      ensures cancelled == old(cancelled)
    {
      if cancelled[run] {
        return;
      }
      if result.Data? && result.items.Some? {
        messages := Normalize(result.items.value);
      }
      loading := false;
    }
  }

  /**
   * The report id changes while a fetch is in flight: React runs the old
   * run's cleanup, then the effect again for the new id. The old fetch's
   * result, whenever it arrives, leaves the page as the new run made it.
   */
  method SupersededRunIgnored(p: HistoryPage, oldRun: nat, newId: string, late: FetchResult)
    returns (newRun: Option<nat>)
    requires oldRun < |p.cancelled|
    requires newId != ""
    modifies p
    ensures newRun == Some(|old(p.cancelled)|)
    ensures p.cancelled == old(p.cancelled)[oldRun := true] + [false]
    ensures p.messages == old(p.messages) && p.loading
  {
    p.Cleanup(oldRun);
    var nav, fetchFor;
    nav, fetchFor, newRun := p.Effect(Some(newId), true);
    p.Settle(oldRun, late);
  }
}
