/**
  Event subscriptions: handlers registered with a session, and the move-only
  handles that take them away again.
 */
module Subscriptions {
  import opened Basics

  // -------------------------------------------------------- on plain values

  datatype Entry = Entry(id: nat, handler: string)

  /** One run of the unsubscribe callback of a registration. */
  datatype Ran = Ran(id: nat, returned: bool)

  /** `holders` has the live handles; `registered` and `ran` remember everything that happened. */
  datatype State<H> = State(
    alive: bool,
    handlers: seq<Entry>,
    nextId: nat,
    holders: map<H, Option<nat>>,
    registered: seq<string>,
    ran: seq<Ran>)

  datatype Op<H> =
    | Default(handle: H)
    | On(handler: string, handle: H)
    | MoveConstruct(handle: H, from: H)
    | MoveAssign(to: H, from: H)
    | Unsubscribe(handle: H, throws: bool)
    | Destroy(handle: H)
    | SessionEnds

  predicate Enabled<H(==)>(s: State<H>, op: Op<H>) {
    match op
    case Default(h) => h !in s.holders
    case On(_, h) => h !in s.holders && s.alive
    case MoveConstruct(h, from) => h !in s.holders && from in s.holders
    case MoveAssign(to, from) => to in s.holders && from in s.holders
    case Unsubscribe(h, throws) => h in s.holders && (throws ==> s.holders[h].Some? && s.alive)
    case Destroy(h) => h in s.holders
    case SessionEnds => s.alive
  }

  function Without(handlers: seq<Entry>, id: nat): seq<Entry> {
    if |handlers| == 0 then []
    else
      var front, last := handlers[..|handlers| - 1], handlers[|handlers| - 1];
      if last.id == id then Without(front, id) else Without(front, id) + [last]
  }

  /** The callback runs; a callback that throws has not removed anything. */
  function Called<H>(s: State<H>, id: nat, returned: bool): State<H> {
    var s := s.(ran := s.ran + [Ran(id, returned)]);
    if returned && s.alive then s.(handlers := Without(s.handlers, id)) else s
  }

  function Release<H(==)>(s: State<H>, h: H): State<H>
    requires h in s.holders
  {
    if s.holders[h].Some? then Called(s, s.holders[h].value, true) else s
  }

  function Do<H(==)>(s: State<H>, op: Op<H>): State<H>
    requires Enabled(s, op)
  {
    match op
    case Default(h) => s.(holders := s.holders[h := None])
    case On(handler, h) =>
      s.(handlers := s.handlers + [Entry(s.nextId, handler)],
         nextId := s.nextId + 1,
         holders := s.holders[h := Some(s.nextId)],
         registered := s.registered + [handler])
    case MoveConstruct(h, from) => s.(holders := s.holders[h := s.holders[from]][from := None])
    case MoveAssign(to, from) =>
      if to == from then s
      else Release(s, to).(holders := s.holders[to := s.holders[from]][from := None])
    case Unsubscribe(h, throws) =>
      if throws then Called(s, s.holders[h].value, false)
      else Release(s, h).(holders := s.holders[h := None])
    case Destroy(h) => Release(s, h).(holders := s.holders - {h})
    case SessionEnds => s.(alive := false, handlers := [])
  }

  // ---------------------------------------------------------------- the code

  class Session {
    var alive: bool
    var handlers: seq<Entry>
    var nextId: nat
    ghost var live: set<Subscription>
    ghost var registered: seq<string>
    ghost var ran: seq<Ran>
    ghost var calls: seq<string>

    ghost function Model(): State<Subscription>
      reads this, live
    {
      State(alive, handlers, nextId, map h | h in live :: h.unsubscribe, registered, ran)
    }

    constructor ()
      ensures Model() == State(true, [], 0, map[], [], []) && calls == []
    {
      alive, handlers, nextId, live := true, [], 0, {};
      registered, ran, calls := [], [], [];
    }

    method On(handler: string) returns (subscription: Subscription)
      requires alive
      modifies this
      ensures fresh(subscription) && subscription.session == this && live == old(live) + {subscription}
      ensures calls == old(calls)
      ensures Model() == Do(old(Model()), Op.On(handler, subscription))
    {
      var id := nextId;
      nextId := nextId + 1;
      handlers := handlers + [Entry(id, handler)];
      registered := registered + [handler];
      subscription := new Subscription(this, Some(id));
      live := live + {subscription};
    }

    /** The callback of a registration, as far as it gets; it throws only when it cannot lock. */
    method RunCallback(id: nat) returns (returned: bool)
      modifies `handlers, `ran
      ensures !alive ==> returned
      ensures ran == old(ran) + [Ran(id, returned)]
      ensures handlers == if returned && alive then Without(old(handlers), id) else old(handlers)
    {
      returned := true;
      if alive {
        returned := *;
        if returned {
          handlers := RemoveIf(handlers, id);
        }
      }
      ran := ran + [Ran(id, returned)];
    }

    /** The session is gone; handles may outlive it. */
    method End()
      requires alive
      modifies `alive, `handlers
      ensures Model() == Do(old(Model()), SessionEnds)
    {
      alive, handlers := false, [];
    }

    /** Foreign code: it may throw, and it may register and unregister as it likes. */
    method CallHandler(handler: string) returns (threw: bool)
      modifies `handlers, `nextId, `calls
      ensures calls == old(calls) + [handler]
    {
      threw, handlers, nextId := *, *, *;
      calls := calls + [handler];
    }

    /** Every handler registered when the dispatch began is called, once, in registration order. */
    method DispatchEvent()
      modifies `handlers, `nextId, `calls
      ensures calls == old(calls) + Names(old(handlers))
    {
      var copy: seq<string> := [];
      ghost var snapshot := handlers;
      for i := 0 to |handlers|
        invariant handlers == snapshot && calls == old(calls) && copy == Names(handlers[..i])
      {
        copy := copy + [handlers[i].handler];
        assert handlers[..i + 1] == handlers[..i] + [handlers[i]];
      }
      assert snapshot[..|snapshot|] == snapshot;
      for i := 0 to |copy|
        invariant calls == old(calls) + copy[..i]
      {
        var _ := CallHandler(copy[i]);
        assert old(calls) + copy[..i + 1] == (old(calls) + copy[..i]) + [copy[i]];
      }
    }
  }

  function Names(entries: seq<Entry>): (names: seq<string>)
    ensures |names| == |entries| && forall i | 0 <= i < |names| :: names[i] == entries[i].handler
  {
    seq(|entries|, i requires 0 <= i < |entries| => entries[i].handler)
  }

  /** std::remove_if and erase: kept elements move down over the removed ones. */
  method RemoveIf(handlers: seq<Entry>, id: nat) returns (kept: seq<Entry>)
    ensures kept == Without(handlers, id)
  {
    kept := [];
    for i := 0 to |handlers|
      invariant kept == Without(handlers[..i], id)
    {
      assert handlers[..i + 1][..i] == handlers[..i];
      if handlers[i].id != id {
        kept := kept + [handlers[i]];
      }
    }
    assert handlers[..|handlers|] == handlers;
  }

  /** The handle. A destructor and a noexcept assignment end the program when the callback throws. */
  class Subscription {
    const session: Session
    var unsubscribe: Option<nat>

    constructor (session: Session, unsubscribe: Option<nat>)
      ensures this.session == session && this.unsubscribe == unsubscribe
    {
      this.session, this.unsubscribe := session, unsubscribe;
    }

    constructor Move(other: Subscription)
      requires other in other.session.live
      modifies other`unsubscribe, other.session`live
      ensures this !in old(other.session.live)
      ensures session == other.session && session.live == old(other.session.live) + {this}
      ensures session.Model() == Do(old(other.session.Model()), MoveConstruct(this, other))
    {
      session, unsubscribe := other.session, other.unsubscribe;
      new;
      other.unsubscribe := None;
      session.live := session.live + {this};
    }

    /** False: the program has ended. */
    method Assign(other: Subscription) returns (running: bool)
      requires session == other.session && this in session.live && other in session.live
      modifies `unsubscribe, other`unsubscribe, session`handlers, session`ran
      ensures running ==> session.Model() == Do(old(session.Model()), MoveAssign(this, other))
    {
      if this != other {
        if unsubscribe.Some? {
          running := session.RunCallback(unsubscribe.value);
          if !running {
            return;
          }
        }
        unsubscribe := other.unsubscribe;
        other.unsubscribe := None;
      }
      return true;
    }

    method Unsubscribe() returns (threw: bool)
      requires this in session.live
      modifies `unsubscribe, session`handlers, session`ran
      ensures Enabled(old(session.Model()), Op.Unsubscribe(this, threw))
      ensures session.Model() == Do(old(session.Model()), Op.Unsubscribe(this, threw))
    {
      if unsubscribe.Some? {
        var returned := session.RunCallback(unsubscribe.value);
        if !returned {
          return true;
        }
        unsubscribe := None;
      }
      return false;
    }

    method Destroy() returns (running: bool)
      requires this in session.live
      modifies session`handlers, session`ran, session`live
      ensures running ==> session.Model() == Do(old(session.Model()), Op.Destroy(this))
    {
      running := true;
      if unsubscribe.Some? {
        running := session.RunCallback(unsubscribe.value);
      }
      session.live := session.live - {this};
    }
  }

  // ---------------------------------------------------------- the invariant

  function Freed(ran: seq<Ran>): set<nat> {
    if |ran| == 0 then {}
    else
      var last := ran[|ran| - 1];
      Freed(ran[..|ran| - 1]) + if last.returned then {last.id} else {}
  }

  /** The registrations that have not been taken away, in order. */
  function Remaining(registered: seq<string>, freed: set<nat>): seq<Entry> {
    if |registered| == 0 then []
    else
      var n := |registered| - 1;
      Remaining(registered[..n], freed) + if n in freed then [] else [Entry(n, registered[n])]
  }

  ghost predicate IsHeld<H(!new)>(s: State<H>, id: nat) {
    exists h :: h in s.holders && s.holders[h] == Some(id)
  }

  /** A callback that has returned does not run again. */
  predicate ReturnsLast(ran: seq<Ran>) {
    forall i, j | 0 <= i < j < |ran| :: ran[i].id == ran[j].id ==> !ran[i].returned
  }

  /** Each registration is either held, by one handle, or freed. */
  ghost predicate Inv<H(!new)>(s: State<H>) {
    && s.nextId == |s.registered|
    && (forall h | h in s.holders :: s.holders[h].Some? ==>
        s.holders[h].value < s.nextId && s.holders[h].value !in Freed(s.ran))
    && (forall g, h | g in s.holders && h in s.holders :: s.holders[g].Some? && s.holders[g] == s.holders[h] ==> g == h)
    && (forall id: nat | id < s.nextId :: id in Freed(s.ran) || IsHeld(s, id))
    && (forall i | 0 <= i < |s.ran| :: s.ran[i].id < s.nextId)
    && ReturnsLast(s.ran)
    && s.handlers == if s.alive then Remaining(s.registered, Freed(s.ran)) else []
  }

  lemma {:induction false} FreedIs(ran: seq<Ran>, id: nat)
    ensures id in Freed(ran) <==> exists i :: 0 <= i < |ran| && ran[i] == Ran(id, true)
  {
    if |ran| > 0 {
      var n := |ran| - 1;
      FreedIs(ran[..n], id);
      assert forall i | 0 <= i < n :: ran[..n][i] == ran[i];
    }
  }

  lemma RanOnce(ran: seq<Ran>, id: nat, returned: bool)
    requires ReturnsLast(ran) && id !in Freed(ran)
    ensures ReturnsLast(ran + [Ran(id, returned)])
    ensures Freed(ran + [Ran(id, returned)]) == Freed(ran) + if returned then {id} else {}
  {
    FreedIs(ran, id);
    assert (ran + [Ran(id, returned)])[..|ran|] == ran;
  }

  lemma WithoutEnd(handlers: seq<Entry>, last: Entry, id: nat)
    ensures Without(handlers + [last], id) ==
            if last.id == id then Without(handlers, id) else Without(handlers, id) + [last]
  {
    assert (handlers + [last])[..|handlers|] == handlers;
  }

  /** What the last registration adds; nothing, when there is none. */
  lemma RemainingLast(registered: seq<string>, freed: set<nat>)
    ensures registered == [] ==> Remaining(registered, freed) == []
    ensures registered != [] ==>
              var n := |registered| - 1;
              && (n in freed ==> Remaining(registered, freed) == Remaining(registered[..n], freed))
              && (n !in freed ==>
                  Remaining(registered, freed) == Remaining(registered[..n], freed) + [Entry(n, registered[n])])
  {
  }

  /** Taking one handler away leaves the others, in their order. */
  lemma {:induction false} RemainingWithout(registered: seq<string>, freed: set<nat>, id: nat)
    ensures Without(Remaining(registered, freed), id) == Remaining(registered, freed + {id})
  {
    hide Remaining;
    RemainingLast(registered, freed);
    RemainingLast(registered, freed + {id});
    if |registered| > 0 {
      var n := |registered| - 1;
      RemainingWithout(registered[..n], freed, id);
      if n !in freed {
        WithoutEnd(Remaining(registered[..n], freed), Entry(n, registered[n]), id);
      }
    }
  }

  lemma RemainingNew(registered: seq<string>, freed: set<nat>, handler: string)
    requires |registered| !in freed
    ensures Remaining(registered + [handler], freed) == Remaining(registered, freed) + [Entry(|registered|, handler)]
  {
    assert (registered + [handler])[..|registered|] == registered;
  }

  /** What the list of remaining handlers means. */
  lemma {:induction false} RemainingIs(registered: seq<string>, freed: set<nat>)
    ensures forall i, j | 0 <= i < j < |Remaining(registered, freed)| ::
              Remaining(registered, freed)[i].id < Remaining(registered, freed)[j].id
    ensures forall e :: e in Remaining(registered, freed) <==>
                          e.id < |registered| && e.id !in freed && e.handler == registered[e.id]
  {
    if |registered| > 0 {
      var n := |registered| - 1;
      var rest := Remaining(registered[..n], freed);
      RemainingIs(registered[..n], freed);
      assert forall i | 0 <= i < |rest| :: rest[i] in rest;
      assert forall k: nat | k < n :: registered[..n][k] == registered[k];
    }
  }

  // -------------------------------------------------------------- the steps

  /** The callback of a held registration runs to its end and its handle lets go. */
  lemma ReleaseKeeps<H(!new)>(s: State<H>, h: H)
    requires Inv(s) && h in s.holders
    ensures var next := Release(s, h).(holders := s.holders[h := None]); Inv(next)
  {
    var next := Release(s, h).(holders := s.holders[h := None]);
    if s.holders[h].Some? {
      var id := s.holders[h].value;
      RanOnce(s.ran, id, true);
      RemainingWithout(s.registered, Freed(s.ran), id);
    }
    forall k: nat | k < next.nextId
      ensures k in Freed(next.ran) || IsHeld(next, k)
    {
      if k !in Freed(next.ran) {
        Moved(s, next, k, h, h);
      }
    }
  }

  /** A registration keeps its handle, or moves with it. */
  lemma Moved<H(!new)>(s: State<H>, next: State<H>, id: nat, from: H, to: H)
    requires IsHeld(s, id)
    requires forall g | g in s.holders && g != from && g != to :: g in next.holders && next.holders[g] == s.holders[g]
    requires from in s.holders && s.holders[from] == Some(id) ==> to in next.holders && next.holders[to] == Some(id)
    requires from != to && to in s.holders ==> s.holders[to] != Some(id)
    ensures IsHeld(next, id)
  {
    var g :| g in s.holders && s.holders[g] == Some(id);
    var g' := if g == from then to else g;
    assert g' in next.holders && next.holders[g'] == Some(id);
  }

  /** Moving out of one handle into another that holds nothing. */
  lemma MoveKeeps<H(!new)>(s: State<H>, to: H, from: H)
    requires Inv(s) && from in s.holders && to != from && (to in s.holders ==> s.holders[to].None?)
    ensures Inv(s.(holders := s.holders[to := s.holders[from]][from := None]))
  {
    var next := s.(holders := s.holders[to := s.holders[from]][from := None]);
    forall k: nat | k < next.nextId
      ensures k in Freed(next.ran) || IsHeld(next, k)
    {
      if k !in Freed(next.ran) {
        Moved(s, next, k, from, to);
      }
    }
  }

  lemma NewKeeps<H(!new)>(s: State<H>, handler: string, h: H)
    requires Inv(s) && Enabled(s, On(handler, h))
    ensures Inv(Do(s, On(handler, h)))
  {
    var next := Do(s, On(handler, h));
    FreedIs(s.ran, s.nextId);
    RemainingNew(s.registered, Freed(s.ran), handler);
    assert next.holders[h] == Some(s.nextId);
    forall k: nat | k < next.nextId
      ensures k in Freed(next.ran) || IsHeld(next, k)
    {
      if k < s.nextId && k !in Freed(s.ran) {
        Moved(s, next, k, h, h);
      }
    }
  }

  /** A handle that holds nothing comes or goes. */
  lemma EmptyKeeps<H(!new)>(s: State<H>, h: H)
    requires Inv(s) && (h in s.holders ==> s.holders[h].None?)
    ensures Inv(s.(holders := s.holders[h := None])) && Inv(s.(holders := s.holders - {h}))
  {
    forall k: nat | k < s.nextId && k !in Freed(s.ran)
      ensures IsHeld(s.(holders := s.holders[h := None]), k) && IsHeld(s.(holders := s.holders - {h}), k)
    {
      Moved(s, s.(holders := s.holders[h := None]), k, h, h);
      Moved(s, s.(holders := s.holders - {h}), k, h, h);
    }
  }

  lemma ThrowKeeps<H(!new)>(s: State<H>, h: H)
    requires Inv(s) && Enabled(s, Unsubscribe(h, true))
    ensures Inv(Do(s, Unsubscribe(h, true)))
  {
    var next := Do(s, Unsubscribe(h, true));
    RanOnce(s.ran, s.holders[h].value, false);
    assert Freed(next.ran) == Freed(s.ran);
    forall k: nat | k < next.nextId
      ensures k in Freed(next.ran) || IsHeld(next, k)
    {
      if k !in Freed(next.ran) {
        Moved(s, next, k, h, h);
      }
    }
  }

  lemma StepKeepsInv<H(!new)>(s: State<H>, op: Op<H>)
    requires Inv(s) && Enabled(s, op)
    ensures Inv(Do(s, op))
  {
    hide Inv;
    match op
    case Default(h) => EmptyKeeps(s, h);
    case On(handler, h) => NewKeeps(s, handler, h);
    case MoveConstruct(h, from) => MoveKeeps(s, h, from);
    case MoveAssign(to, from) =>
      if to != from {
        ReleaseKeeps(s, to);
        var released := Release(s, to).(holders := s.holders[to := None]);
        MoveKeeps(released, to, from);
        assert released.holders[to := s.holders[from]][from := None] == s.holders[to := s.holders[from]][from := None];
      }
    case Unsubscribe(h, throws) => if throws { ThrowKeeps(s, h); } else { ReleaseKeeps(s, h); }
    case Destroy(h) =>
      ReleaseKeeps(s, h);
      var released := Release(s, h).(holders := s.holders[h := None]);
      EmptyKeeps(released, h);
      assert released.holders - {h} == s.holders - {h};
    case SessionEnds => EndKeeps(s);
  }

  lemma EndKeeps<H(!new)>(s: State<H>)
    requires Inv(s)
    ensures Inv(s.(alive := false, handlers := []))
  {
    var next := s.(alive := false, handlers := []);
    assert forall id | IsHeld(s, id) :: IsHeld(next, id);
  }

  // ------------------------------------------------------------ whole runs

  function Next<H(==)>(s: State<H>, op: Op<H>): Option<State<H>> {
    if Enabled(s, op) then Some(Do(s, op)) else None
  }

  lemma RunKeepsInv<H(!new)>(s: State<H>, ops: seq<Op<H>>, end: State<H>)
    requires Inv(s) && Run(Next, s, ops, end)
    ensures Inv(end)
  {
    forall a: State<H>, op: Op<H> | Inv(a) && Next(a, op).Some?
      ensures Inv(Next(a, op).value)
    {
      StepKeepsInv(a, op);
    }
    RunKeeps(Next, Inv, s, ops, end);
  }

  function Fresh<H>(): State<H> {
    State(true, [], 0, map[], [], [])
  }

  /** Handles are linear: a registration has one holder until its callback returns, none afterwards. */
  lemma OneHolder<H(!new)>(ops: seq<Op<H>>, end: State<H>, id: nat)
    requires Run(Next, Fresh(), ops, end) && id < |end.registered|
    ensures IsHeld(end, id) <==> !exists i :: 0 <= i < |end.ran| && end.ran[i] == Ran(id, true)
    ensures forall g, h | g in end.holders && h in end.holders ::
              end.holders[g] == end.holders[h] == Some(id) ==> g == h
  {
    RunKeepsInv(Fresh(), ops, end);
    FreedIs(end.ran, id);
  }

  /**
    When no handle holds a registration any more, its callback has returned
    exactly once, and every other run of it was an earlier one that threw.
   */
  lemma CallbackReturnsOnce<H(!new)>(ops: seq<Op<H>>, end: State<H>, id: nat) returns (i: nat)
    requires Run(Next, Fresh(), ops, end) && id < |end.registered| && !IsHeld(end, id)
    ensures i < |end.ran| && end.ran[i] == Ran(id, true)
    ensures forall j | 0 <= j < |end.ran| && end.ran[j].id == id && j != i :: j < i && !end.ran[j].returned
  {
    RunKeepsInv(Fresh(), ops, end);
    FreedIs(end.ran, id);
    i :| i < |end.ran| && end.ran[i] == Ran(id, true);
    forall j | 0 <= j < |end.ran| && end.ran[j].id == id && j != i
      ensures j < i && !end.ran[j].returned
    {
      if j > i {
        assert false;
      }
    }
  }

  /** While the session lives its handlers are those not yet taken away, in registration order. */
  lemma HandlersRemain<H(!new)>(ops: seq<Op<H>>, end: State<H>)
    requires Run(Next, Fresh(), ops, end) && end.alive
    ensures forall i, j | 0 <= i < j < |end.handlers| :: end.handlers[i].id < end.handlers[j].id
    ensures forall id: nat, handler :: Entry(id, handler) in end.handlers <==>
                                         id < |Handlers(ops)| && handler == Handlers(ops)[id] && IsHeld(end, id)
  {
    hide Inv, Run, Remaining, Freed, Handlers, IsHeld;
    RegisteredInOrder(ops, end);
    FreshInv<H>();
    RunKeepsInv(Fresh(), ops, end);
    RemainingIs(end.registered, Freed(end.ran));
    HandlersAre(end);
    forall id: nat, handler
      ensures Entry(id, handler) in end.handlers <==>
              id < |end.registered| && handler == end.registered[id] && IsHeld(end, id)
    {
      if id < |end.registered| {
        HeldIsUnfreed(end, id);
      }
      assert Entry(id, handler).id == id && Entry(id, handler).handler == handler;
    }
  }

  lemma FreshInv<H(!new)>()
    ensures Inv(Fresh<H>())
  {
  }

  lemma HandlersAre<H(!new)>(s: State<H>)
    requires Inv(s) && s.alive
    ensures s.handlers == Remaining(s.registered, Freed(s.ran))
  {
  }

  lemma HeldIsUnfreed<H(!new)>(s: State<H>, id: nat)
    requires Inv(s) && id < |s.registered|
    ensures IsHeld(s, id) <==> id !in Freed(s.ran)
  {
  }

  /** An unheld registration had its callback run once exactly when no run of it threw. */
  lemma RunsOnceIfNoneThrew<H(!new)>(ops: seq<Op<H>>, end: State<H>, id: nat)
    requires Run(Next, Fresh(), ops, end) && id < |end.registered| && !IsHeld(end, id)
    ensures (forall i, j | 0 <= i < j < |end.ran| :: end.ran[i].id != id || end.ran[j].id != id) <==>
            (forall i | 0 <= i < |end.ran| && end.ran[i].id == id :: end.ran[i].returned)
  {
    var last := CallbackReturnsOnce(ops, end, id);
  }

  const SUBSCRIBED: State<nat> := State(true, [Entry(0, "handler")], 1, map[7 := Some(0)], ["handler"], [])
  const THREW: State<nat> := SUBSCRIBED.(ran := [Ran(0, false)])
  const RAN_TWICE: State<nat> := State(true, [], 1, map[], ["handler"], [Ran(0, false), Ran(0, true)])

  lemma Subscribes()
    ensures Next(Fresh<nat>(), On("handler", 7)) == Some(SUBSCRIBED)
  {
    assert Do(Fresh<nat>(), On("handler", 7)) == SUBSCRIBED;
  }

  lemma Throws()
    ensures Next(SUBSCRIBED, Unsubscribe(7, true)) == Some(THREW)
  {
    assert Do(SUBSCRIBED, Unsubscribe(7, true)) == THREW;
  }

  lemma RunsAgain()
    ensures Next(THREW, Destroy(7)) == Some(RAN_TWICE)
  {
    assert Without([Entry(0, "handler")][..0], 0) == [];
    assert Do(THREW, Destroy(7)) == RAN_TWICE;
  }

  /** A callback that throws out of unsubscribe() runs again when the handle is destroyed. */
  lemma CallbackRunsTwice()
    ensures exists end: State<nat> ::
              && Run(Next, Fresh(), [On("handler", 7), Unsubscribe(7, true), Destroy(7)], end)
              && end.ran == [Ran(0, false), Ran(0, true)]
  {
    hide Run, Next;
    Subscribes();
    Throws();
    RunsAgain();
    RunOne(Next, Fresh<nat>(), On("handler", 7));
    var ops := RunFurther(Next, Fresh<nat>(), [On("handler", 7)], SUBSCRIBED, Unsubscribe(7, true), THREW);
    ops := RunFurther(Next, Fresh<nat>(), ops, THREW, Destroy(7), RAN_TWICE);
    assert ops == [On("handler", 7), Unsubscribe(7, true), Destroy(7)];
  }

  /** From the operations alone: the handlers that were registered, in order. */
  function Handlers<H>(ops: seq<Op<H>>): seq<string> {
    if |ops| == 0 then []
    else if ops[|ops| - 1].On? then Handlers(ops[..|ops| - 1]) + [ops[|ops| - 1].handler]
    else Handlers(ops[..|ops| - 1])
  }

  lemma OnStep<H(!new)>(s: State<H>, op: Op<H>, next: State<H>)
    requires Next(s, op) == Some(next)
    ensures next.registered == if op.On? then s.registered + [op.handler] else s.registered
  {
  }

  lemma {:induction false} RegisteredInOrder<H(!new)>(ops: seq<Op<H>>, end: State<H>)
    requires Run(Next, Fresh(), ops, end)
    ensures end.registered == Handlers(ops)
    decreases |ops|
  {
    hide Run, Next;
    if |ops| == 0 {
      RunNothingEnds(Next, Fresh<H>(), ops, end);
    } else {
      var mid := RunLast(Next, Fresh<H>(), ops, end);
      RegisteredInOrder(ops[..|ops| - 1], mid);
      OnStep(mid, ops[|ops| - 1], end);
    }
  }
}
