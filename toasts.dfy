/** The client's toast notifications: the list a `ToastProvider` holds, the two
    updaters it hands out, and what `useToast` gives outside a provider. */
module Toasts {
  import opened Values

  datatype Variant = Success | Error | Info

  /** What a caller passes to `toast`: every field but the id. */
  datatype ToastInput = ToastInput(title: Option<string>, description: Option<string>, variant: Option<Variant>)

  /** One notification on screen. */
  datatype Toast = Toast(id: string, title: Option<string>, description: Option<string>, variant: Option<Variant>)

  predicate HasId(s: seq<Toast>, id: string)
  {
    exists i :: 0 <= i < |s| && s[i].id == id
  }

  /** The `toast` updater, `prev => [...prev, { id, ...input }]`. */
  function Appended(prev: seq<Toast>, id: string, input: ToastInput): (r: seq<Toast>)
    ensures |r| == |prev| + 1
    ensures r[..|prev|] == prev
    ensures r[|prev|].id == id && r[|prev|].title == input.title
    ensures r[|prev|].description == input.description && r[|prev|].variant == input.variant
  {
    prev + [Toast(id, input.title, input.description, input.variant)]
  }

  /** The `removeToast` updater, `prev => prev.filter(t => t.id !== id)`. */
  function Removed(prev: seq<Toast>, id: string): (r: seq<Toast>)
    ensures |r| <= |prev|
    ensures forall i :: 0 <= i < |r| ==> r[i].id != id
  {
    if prev == [] then []
    else (if prev[0].id == id then [] else [prev[0]]) + Removed(prev[1..], id)
  }

  /** The filter keeps every other entry, each as often as it was there. */
  lemma {:induction false} RemovedKeepsOthers(prev: seq<Toast>, id: string, t: Toast)
    requires t.id != id
    ensures multiset(Removed(prev, id))[t] == multiset(prev)[t]
  {
    if prev != [] {
      RemovedKeepsOthers(prev[1..], id, t);
      assert prev == [prev[0]] + prev[1..];
    }
  }

  /** Filtering a concatenation filters each part, so the survivors keep their order. */
  lemma {:induction false} RemovedDistributes(a: seq<Toast>, b: seq<Toast>, id: string)
    ensures Removed(a + b, id) == Removed(a, id) + Removed(b, id)
  {
    if a == [] {
      assert a + b == b;
    } else {
      assert (a + b)[1..] == a[1..] + b;
      RemovedDistributes(a[1..], b, id);
    }
  }

  /** Removing an id that is not on the list changes nothing. */
  lemma {:induction false} RemovedAbsent(prev: seq<Toast>, id: string)
    requires !HasId(prev, id)
    ensures Removed(prev, id) == prev
  {
    if prev != [] {
      assert !HasId(prev[1..], id) by {
        forall i | 0 <= i < |prev[1..]| ensures prev[1..][i].id != id {
          assert prev[1..][i] == prev[i + 1];
        }
      }
      RemovedAbsent(prev[1..], id);
    }
  }

  /** Removing the same id twice is removing it once. */
  lemma RemovedIdempotent(prev: seq<Toast>, id: string)
    ensures Removed(Removed(prev, id), id) == Removed(prev, id)
  {
    RemovedAbsent(Removed(prev, id), id);
  }

  /** Removing a freshly added toast by its id restores the list. */
  lemma ToastThenRemove(prev: seq<Toast>, id: string, input: ToastInput)
    requires !HasId(prev, id)
    ensures Removed(Appended(prev, id, input), id) == prev
  {
    var t := Toast(id, input.title, input.description, input.variant);
    RemovedDistributes(prev, [t], id);
    RemovedAbsent(prev, id);
    assert Removed([t], id) == [] + Removed([], id);
  }

  /** The provider's `toasts` state. */
  class ToastProvider {
    var toasts: seq<Toast>

    constructor ()
      ensures toasts == []
    {
      toasts := [];
    }

    /** `toast(input)`, with `id` the fresh id that `uuidv4()` would produce. */
    method AddToast(input: ToastInput, id: string)
      modifies this
      ensures toasts == Appended(old(toasts), id, input)
    {
      toasts := Appended(toasts, id, input);
    }

    /** `removeToast(id)`. */
    method RemoveToast(id: string)
      modifies this
      ensures toasts == Removed(old(toasts), id)
    {
      toasts := Removed(toasts, id);
    }
  }

  /** What `useToast` returns: the enclosing provider's state, or the fallback. */
  datatype ToastContext = Provided(provider: ToastProvider) | NoProvider

  function Footprint(ctx: ToastContext): set<object>
  {
    if ctx.Provided? then {ctx.provider} else {}
  }

  /** The `toasts` list the hook exposes: empty without a provider. */
  function Visible(ctx: ToastContext): seq<Toast>
    reads Footprint(ctx)
  {
    if ctx.Provided? then ctx.provider.toasts else []
  }

  /** The hook's `toast`: appends under a provider, only logs without one. */
  method HookToast(ctx: ToastContext, input: ToastInput, id: string)
    modifies Footprint(ctx)
    ensures ctx.Provided? ==> Visible(ctx) == Appended(old(Visible(ctx)), id, input)
    ensures ctx.NoProvider? ==> Visible(ctx) == []
  {
    if ctx.Provided? {
      ctx.provider.AddToast(input, id);
    }
  }

  /** The hook's `removeToast`: filters under a provider, does nothing without one. */
  method HookRemoveToast(ctx: ToastContext, id: string)
    modifies Footprint(ctx)
    ensures ctx.Provided? ==> Visible(ctx) == Removed(old(Visible(ctx)), id)
    ensures ctx.NoProvider? ==> Visible(ctx) == []
  {
    if ctx.Provided? {
      ctx.provider.RemoveToast(id);
    }
  }
}
