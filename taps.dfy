/** Listener records of the hook library, and the guard that `conditionalTap`
    installs around a listener (src/index.ts, lines 28-48). */
module Taps {

  /** How a hook invokes a listener: the library's `sync`, `async` and
      `promise` kinds, or any other tag a listener may carry. A kind is read
      from its tag with `KindOf`, so the tag of `Other` is never one of the
      three known ones. */
  datatype TapKind = Sync | Async | Promise | Other(tag: string)

  /** The kind a listener's `type` tag names. */
  function KindOf(tag: string): (k: TapKind)
    ensures k.Other? <==> tag != "sync" && tag != "async" && tag != "promise"
    ensures k.Other? ==> k.tag == tag
    ensures tag == "sync" ==> k == Sync
    ensures tag == "async" ==> k == Async
    ensures tag == "promise" ==> k == Promise
  {
    if tag == "sync" then Sync
    else if tag == "async" then Async
    else if tag == "promise" then Promise
    else Other(tag)
  }

  /** The function a tap holds. `Original` is a listener supplied by another
      plugin, identified by a token; `Guarded` is the wrapper `conditionalTap`
      puts around the function the tap held before, together with the kind the
      wrapper switches on. */
  datatype Listener = Original(id: nat) | Guarded(inner: Listener, kind: TapKind)

  /** What a call of a tap's function returns. An original listener's own
      result belongs to its owner, so the model records only that it ran and
      with which arguments. The three no-op values are functions that the
      wrapper RETURNS: none of them is called by the wrapper. */
  datatype Value<A> = Ran(id: nat, args: seq<A>) | SyncNoop | CallbackNoop | ResolvedPromiseNoop

  datatype Outcome<A> = Returned(value: Value<A>) | Threw(message: string)

  const UNKNOWN_TAP_TYPE := "Unknown tap type: "

  /** A registered listener. Its name and kind are fixed at registration,
      the kind read from the listener's `type` tag; its function can be
      replaced in place. */
  class Tap {
    const name: string
    const kind: TapKind
    var fn: Listener

    constructor (name: string, tag: string, fn: Listener)
      ensures this.name == name && kind == KindOf(tag) && this.fn == fn
    {
      this.name := name;
      kind := KindOf(tag);
      this.fn := fn;
    }
  }

  /** The listener a chain of wrappers finally delegates to. */
  function Root(fn: Listener): nat
  {
    match fn
    case Original(id) => id
    case Guarded(inner, _) => Root(inner)
  }

  /** The value the wrapper produces for a listener of the given kind when its
      guard fails: a do-nothing function for `sync`, a function that would call
      its last argument for `async`, a function returning a resolved promise
      for `promise`, and an error for any other kind. */
  function NoopFor<A>(kind: TapKind): (r: Outcome<A>)
    ensures r.Threw? <==> kind.Other?
    ensures r.Threw? ==> r.message == UNKNOWN_TAP_TYPE + kind.tag
    ensures r.Returned? ==> !r.value.Ran?
    ensures kind == Sync ==> r == Returned(SyncNoop)
    ensures kind == Async ==> r == Returned(CallbackNoop)
    ensures kind == Promise ==> r == Returned(ResolvedPromiseNoop)
  {
    match kind
    case Sync => Returned(SyncNoop)
    case Async => Returned(CallbackNoop)
    case Promise => Returned(ResolvedPromiseNoop)
    case Other(tag) => Threw(UNKNOWN_TAP_TYPE + tag)
  }

  /** Calling a tap's function `fn` with `args`, where `guardHolds` is what the
      guard's condition returns at the moment of the call. When the guard
      holds, the call reaches the original listener with the very same
      arguments; when it fails, a wrapped listener never runs. */
  function Call<A>(fn: Listener, args: seq<A>, guardHolds: bool): (r: Outcome<A>)
    ensures guardHolds ==> r == Returned(Ran(Root(fn), args))
    ensures fn.Original? ==> r == Returned(Ran(fn.id, args))
    ensures !guardHolds && fn.Guarded? ==> r == NoopFor(fn.kind)
    ensures !guardHolds && fn.Guarded? ==> (r.Threw? <==> fn.kind.Other?) && (r.Returned? ==> !r.value.Ran?)
  {
    match fn
    case Original(id) => Returned(Ran(id, args))
    case Guarded(inner, kind) => if guardHolds then Call(inner, args, guardHolds) else NoopFor(kind)
  }

  /** `conditionalTap`: replaces the tap's function, in place, by a guarded
      wrapper around the function it held, and returns the same tap. */
  method ConditionalTap(tap: Tap) returns (r: Tap)
    modifies tap
    ensures r == tap
    ensures tap.fn == Guarded(old(tap.fn), tap.kind)
  {
    tap.fn := Guarded(tap.fn, tap.kind);
    r := tap;
  }
}
