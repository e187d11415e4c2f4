/**
 * The toast notifications (src/components/Toast.jsx): a provider that keeps
 * a list of `{id, message, type}` entries, appends to it, removes entries by
 * id on close or when their timer fires, and the `useToast` guard.
 *
 * `Date.now()` is the parameter `now`; a scheduled `setTimeout` is recorded
 * in `timers` and its callback runs when `Expire` is called.
 */
module Toast {
  import opened Wrappers
  import ReactContext

  const DefaultType: string := "info"
  const DefaultDuration: int := 3000
  const MissingProviderError: string := "useToast must be used within a ToastProvider"

  datatype Entry = Entry(id: int, message: string, kind: string)

  /** A pending `setTimeout(() => removeToast(id), duration)`. */
  datatype Timer = Timer(id: int, duration: int)

  /** `list.filter(t => t.id !== id)`. */
  function Without(list: seq<Entry>, id: int): (r: seq<Entry>)
    ensures |r| <= |list|
    ensures forall i :: 0 <= i < |r| ==> r[i].id != id
  {
    if list == [] then []
    else
      var last := list[|list| - 1];
      Without(list[..|list| - 1], id) + (if last.id != id then [last] else [])
  }

  /** An entry survives the removal exactly when it was there and has another id. */
  lemma {:induction false} WithoutSpec(list: seq<Entry>, id: int)
    ensures forall t :: t in Without(list, id) <==> t in list && t.id != id
  {
    if list != [] {
      var init := list[..|list| - 1];
      WithoutSpec(init, id);
      assert list == init + [list[|list| - 1]];
    }
  }

  /** Filtering distributes over concatenation, so the kept entries stay in order. */
  lemma {:induction false} WithoutAppend(a: seq<Entry>, b: seq<Entry>, id: int)
    ensures Without(a + b, id) == Without(a, id) + Without(b, id)
  {
    if b == [] {
      assert a + b == a;
    } else {
      var b0 := b[..|b| - 1];
      assert (a + b)[..|a + b| - 1] == a + b0;
      assert (a + b)[|a + b| - 1] == b[|b| - 1];
      WithoutAppend(a, b0, id);
    }
  }

  /** A list without the id is left as it is. */
  lemma {:induction false} WithoutAbsent(list: seq<Entry>, id: int)
    requires forall i :: 0 <= i < |list| ==> list[i].id != id
    ensures Without(list, id) == list
  {
    if list != [] {
      var init := list[..|list| - 1];
      WithoutAbsent(init, id);
      assert init + [list[|list| - 1]] == list;
    }
  }

  /** Removing an id twice is the same as removing it once. */
  lemma WithoutIdempotent(list: seq<Entry>, id: int)
    ensures Without(Without(list, id), id) == Without(list, id)
  {
    WithoutAbsent(Without(list, id), id);
  }

  /** Adding a toast and removing its id leaves the earlier toasts without that id. */
  lemma AddThenRemove(list: seq<Entry>, e: Entry)
    ensures Without(list + [e], e.id) == Without(list, e.id)
    ensures (forall i :: 0 <= i < |list| ==> list[i].id != e.id) ==> Without(list + [e], e.id) == list
  {
    assert (list + [e])[..|list + [e]| - 1] == list;
    if forall i :: 0 <= i < |list| ==> list[i].id != e.id {
      WithoutAbsent(list, e.id);
    }
  }

  /** The value the provider hands to `useToast`'s callers; its list is the provider's state. */
  class ToastProvider {
    var toasts: seq<Entry>
    var timers: seq<Timer>

    constructor()
      ensures toasts == [] && timers == []
    {
      toasts, timers := [], [];
    }

    /**
     * `addToast(message, type = 'info', duration = 3000)`: appends one entry
     * whose id is the current time, schedules its removal when the duration is
     * positive, and returns the id. `None` is an argument left `undefined`.
     */
    method AddToast(message: string, kind: Option<string>, duration: Option<int>, now: int) returns (id: int)
      modifies this
      ensures id == now
      ensures toasts == old(toasts) + [Entry(now, message, kind.GetOr(DefaultType))]
      ensures duration.GetOr(DefaultDuration) > 0 ==> timers == old(timers) + [Timer(now, duration.GetOr(DefaultDuration))]
      ensures duration.GetOr(DefaultDuration) <= 0 ==> timers == old(timers)
    {
      id := now;
      toasts := toasts + [Entry(id, message, kind.GetOr(DefaultType))];
      var d := duration.GetOr(DefaultDuration);
      if d > 0 {
        timers := timers + [Timer(id, d)];
      }
    }

    /** `removeToast(id)`: every entry with that id goes, the others keep their order. */
    method RemoveToast(id: int)
      modifies this
      ensures toasts == Without(old(toasts), id)
      ensures timers == old(timers)
    {
      toasts := Without(toasts, id);
    }

    /** The `k`-th pending timer fires and removes its toast. */
    method Expire(k: nat)
      requires k < |timers|
      modifies this
      ensures toasts == Without(old(toasts), old(timers)[k].id)
      ensures timers == old(timers)[..k] + old(timers)[k + 1..]
    {
      var id := timers[k].id;
      timers := timers[..k] + timers[k + 1..];
      toasts := Without(toasts, id);
    }

    /** `message(text, duration)` and `message.info(text, duration)`. */
    method Info(text: string, duration: Option<int>, now: int) returns (id: int)
      modifies this
      ensures id == now && toasts == old(toasts) + [Entry(now, text, "info")]
      ensures duration.GetOr(DefaultDuration) > 0 ==> timers == old(timers) + [Timer(now, duration.GetOr(DefaultDuration))]
      ensures duration.GetOr(DefaultDuration) <= 0 ==> timers == old(timers)
    {
      id := AddToast(text, Some("info"), duration, now);
    }

    /** `message.success(text, duration)`. */
    method Success(text: string, duration: Option<int>, now: int) returns (id: int)
      modifies this
      ensures id == now && toasts == old(toasts) + [Entry(now, text, "success")]
      ensures duration.GetOr(DefaultDuration) > 0 ==> timers == old(timers) + [Timer(now, duration.GetOr(DefaultDuration))]
      ensures duration.GetOr(DefaultDuration) <= 0 ==> timers == old(timers)
    {
      id := AddToast(text, Some("success"), duration, now);
    }

    /** `message.warning(text, duration)`. */
    method Warning(text: string, duration: Option<int>, now: int) returns (id: int)
      modifies this
      ensures id == now && toasts == old(toasts) + [Entry(now, text, "warning")]
      ensures duration.GetOr(DefaultDuration) > 0 ==> timers == old(timers) + [Timer(now, duration.GetOr(DefaultDuration))]
      ensures duration.GetOr(DefaultDuration) <= 0 ==> timers == old(timers)
    {
      id := AddToast(text, Some("warning"), duration, now);
    }

    /** `message.error(text, duration)`. */
    method Error(text: string, duration: Option<int>, now: int) returns (id: int)
      modifies this
      ensures id == now && toasts == old(toasts) + [Entry(now, text, "error")]
      ensures duration.GetOr(DefaultDuration) > 0 ==> timers == old(timers) + [Timer(now, duration.GetOr(DefaultDuration))]
      ensures duration.GetOr(DefaultDuration) <= 0 ==> timers == old(timers)
    {
      id := AddToast(text, Some("error"), duration, now);
    }
  }

  /** `useToast()`: the provider's value, or the error when there is no provider above. */
  function UseToast(provided: Option<ToastProvider>): (r: Result<ToastProvider>)
    ensures r.Err? <==> provided.None?
    ensures r.Ok? ==> r.value == provided.value
    ensures r.Err? ==> r.error == MissingProviderError
  {
    ReactContext.UseContext(provided, MissingProviderError)
  }

  /** A toast shown with a positive duration is gone once its timer fires, and nothing else is. */
  method ShowThenExpire(p: ToastProvider, message: string, duration: int, now: int)
    requires duration > 0
    requires forall i :: 0 <= i < |p.toasts| ==> p.toasts[i].id != now
    modifies p
    ensures p.toasts == old(p.toasts)
    ensures p.timers == old(p.timers)
  {
    var id := p.AddToast(message, None, Some(duration), now);
    AddThenRemove(old(p.toasts), Entry(now, message, DefaultType));
    p.Expire(|p.timers| - 1);
  }
}
