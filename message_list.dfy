/**
 * The chat message list (src/pages/chat/MessageList.jsx): the `throttle`
 * closure that rate-limits scrolling while text is typed out, and the
 * streaming and loading flags derived from the messages. The clock is an
 * input of each call.
 */
module MessageList {
  import UseChat

  /** The delay of the scroll throttle, in milliseconds. */
  const ScrollDelay: int := 150

  /** Consecutive entries are at least `delay` apart. */
  predicate Spaced(runs: seq<int>, delay: int) {
    forall i :: 0 <= i < |runs| - 1 ==> runs[i + 1] - runs[i] >= delay
  }

  /** With a non-negative delay, spacing between neighbours gives spacing between any two entries. */
  lemma {:induction false} SpacedPairwise(runs: seq<int>, delay: int)
    requires delay >= 0 && Spaced(runs, delay)
    ensures forall i, j :: 0 <= i < j < |runs| ==> runs[j] - runs[i] >= delay
  {
    if |runs| > 1 {
      var init := runs[..|runs| - 1];
      assert Spaced(init, delay) by {
        forall i | 0 <= i < |init| - 1 ensures init[i + 1] - init[i] >= delay {
          assert init[i + 1] == runs[i + 1] && init[i] == runs[i];
        }
      }
      SpacedPairwise(init, delay);
      forall i, j | 0 <= i < j < |runs| ensures runs[j] - runs[i] >= delay {
        if j < |runs| - 1 {
          assert runs[j] == init[j] && runs[i] == init[i];
        } else if i < j - 1 {
          assert runs[j - 1] - runs[i] >= delay by { assert runs[j - 1] == init[j - 1] && runs[i] == init[i]; }
        }
      }
    }
  }

  /** One `throttle(fn, delay)` closure: `lastCall` starts at 0. */
  class Throttle {
    const delay: int
    var lastCall: int
    /** The clock readings at which `fn` ran. */
    ghost var runs: seq<int>

    ghost predicate Valid()
      reads this
    {
      Spaced(runs, delay) && (runs != [] ==> lastCall == runs[|runs| - 1])
    }

    constructor(delay: int)
      ensures this.delay == delay && lastCall == 0 && runs == [] && Valid()
    {
      this.delay := delay;
      lastCall := 0;
      runs := [];
    }

    /** One call at clock reading `now`: `fn` runs iff `now - lastCall >= delay`, and only then is `now` recorded. */
    method Call(now: int) returns (ran: bool)
      requires Valid()
      modifies this
      ensures Valid()
      ensures ran <==> now - old(lastCall) >= delay
      ensures lastCall == if ran then now else old(lastCall)
      ensures runs == if ran then old(runs) + [now] else old(runs)
    {
      if now - lastCall >= delay {
        lastCall := now;
        runs := runs + [now];
        ran := true;
      } else {
        ran := false;
      }
    }
  }

  /** `messages[messages.length - 1]?.status === 'loading'`. */
  predicate IsStreaming(msgs: seq<UseChat.Message>) {
    msgs != [] && msgs[|msgs| - 1].status == UseChat.Loading
  }

  /** A bubble shows the thinking indicator iff its message is loading and still empty (`!msg.content`). */
  predicate ShowsLoadingIndicator(m: UseChat.Message) {
    m.status == UseChat.Loading && m.content == ""
  }

  /** The list streams right after an accepted send: the placeholder is last, loading and empty. */
  lemma StreamingAfterSend(before: seq<UseChat.Message>, user: UseChat.Message, id: int)
    ensures var msgs := before + [user, UseChat.Message(id, "assistant", "", UseChat.Loading)];
      IsStreaming(msgs) && ShowsLoadingIndicator(msgs[|msgs| - 1])
  {
  }

  /**
   * Once the first non-empty text arrives the indicator gives way to the
   * text while the list keeps streaming; after the round completes or rolls
   * back to a user message, the list no longer streams.
   */
  lemma StreamingFollowsRound(before: seq<UseChat.Message>, user: UseChat.Message, id: int, text: string)
    requires text != "" && user.status == UseChat.Local
    ensures var msgs := before + [user, UseChat.Message(id, "assistant", text, UseChat.Loading)];
      IsStreaming(msgs) && !ShowsLoadingIndicator(msgs[|msgs| - 1])
    ensures !IsStreaming(before + [user, UseChat.Message(id, "assistant", text, UseChat.Success)])
    ensures !IsStreaming(before + [user])
    ensures !IsStreaming([])
  {
  }
}
