/** What lies beyond the assumption that reserve_tail does not wrap: a run that reaches its last value, and then hands
    out slot 0 a second time. */
module ReservationWrap {
  import opened Bytes
  import opened Records
  import opened Protocol
  import opened ProtocolInv
  import opened ProtocolSteps
  import opened Safety
  import opened RecoverRace

  /** Everyone who ever reserved is dead, and the counter stands at n. */
  ghost predicate Spent(e: Env, as_: seq<Action>, s: State, n: nat) {
    Reached(e, as_, s) && Inv(e, s) && s.threads == map[] && s.sh.reserve == n
  }

  /** One more action of a run from a created pool. */
  lemma OneMore(e: Env, as_: seq<Action>, s: State, a: Action)
    requires Reached(e, as_, s) && Inv(e, s) && Enabled(e, s, a) && NoWrapAhead(s)
    ensures Reached(e, as_ + [a], Do(e, s, a)) && Inv(e, Do(e, s, a))
  {
    hide Inv;
    Extend(e, Fresh(e), as_, a);
    ActionInv(e, s, a);
  }

  lemma ReserveMoves(e: Env, s: State, t: Tid, a: Args)
    requires Inv(e, s) && NoWrapAhead(s) && t in s.threads && s.threads[t] == Start(AppendCall(a))
    requires |a.data| <= e.g.payloadSize
    ensures Enabled(e, s, Step(t))
    ensures var s' := Do(e, s, Step(t));
            s'.sh.reserve == s.sh.reserve + 1 && t in s'.threads && s'.threads == s.threads[t := s'.threads[t]]
  {
    hide SharedInv, CounterInv, BodyOps;
    assert ThreadInv(e, s.sh, t, s.threads[t]);
    var s' := Do(e, s, Step(t));
    assert s'.threads == s.threads[t := StepPc(e, s.sh, t, s.threads[t]).pc];
  }

  /** An append that dies right after its fetch_add moves the counter by one for good: it keeps its slot, or owes its
      undo. */
  lemma OneDies(e: Env, as_: seq<Action>, s: State, n: nat, a: Args) returns (more: seq<Action>, next: State)
    requires Spent(e, as_, s, n) && ArgsOk(e.g, a) && n + 1 < U64_MAX
    ensures Spent(e, more, next, n + 1)
  {
    hide Inv, Reached;
    InvOk(e, s);
    OneMore(e, as_, s, Invoke(0, AppendCall(a)));
    var s1 := Do(e, s, Invoke(0, AppendCall(a)));
    more := as_ + [Invoke(0, AppendCall(a))];
    InvOk(e, s1);
    ReserveMoves(e, s1, 0, a);
    OneMore(e, more, s1, Step(0));
    var s2 := Do(e, s1, Step(0));
    more := more + [Step(0)];
    InvOk(e, s2);
    OneMore(e, more, s2, Kill(0));
    next := Do(e, s2, Kill(0));
    more := more + [Kill(0)];
  }

  lemma InvOk(e: Env, s: State)
    requires Inv(e, s)
    ensures SharedOk(e, s.sh)
  {
  }

  /** So any number below the last can be reached. */
  lemma {:induction false} ManyDie(e: Env, n: nat, a: Args) returns (as_: seq<Action>, s: State)
    requires e.g.Ok() && ArgsOk(e.g, a) && n < U64_MAX
    ensures Spent(e, as_, s, n)
  {
    hide Spent;
    if n == 0 {
      as_, s := [], Fresh(e);
      FreshInv(e);
      NoSteps(e, Fresh(e));
      assert Spent(e, [], Fresh(e), 0) by {
        FreshSpent(e);
      }
    } else {
      var before, p := ManyDie(e, n - 1, a);
      as_, s := OneDies(e, before, p, n - 1, a);
    }
  }

  lemma FreshSpent(e: Env)
    requires e.g.Ok()
    ensures Spent(e, [], Fresh(e), 0)
  {
    FreshInv(e);
    NoSteps(e, Fresh(e));
  }

  /** For every geometry and every append there is a run to a state in which the counter is u64::MAX and two appends are
      about to reserve. The pool is full; the first of them is told so, and wraps the counter to 0; the second, before
      any undo, is handed slot 0, which was granted long before. */
  lemma WrappedReservationRegrants(e: Env, a: Args) returns (as_: seq<Action>, s: State)
    requires e.g.Ok() && ArgsOk(e.g, a)
    ensures Reached(e, as_, s) && s.sh.reserve == U64_MAX && |s.sh.grants| == e.g.capacity
    ensures Enabled(e, s, Step(1))
    ensures var s1 := Do(e, s, Step(1));
            && s1.threads[1] == Undo(a, U64_MAX) && Enabled(e, s1, Step(2))
            && Do(e, s1, Step(2)).threads[2] == Body(0, a, 0)
  {
    hide SharedInv, Reached, BodyOps, CountPc;
    var before, p := ManyDie(e, U64_MAX - 1, a);
    as_, s := ThreeReady(e, before, p, a);
    ReserveMoves(e, s, 0, a);
    OneMore(e, as_, s, Step(0));
    as_, s := as_ + [Step(0)], Do(e, s, Step(0));
    WrappedReserve(e, s, 1, a);
    SecondGetsZero(e, Do(e, s, Step(1)), a);
  }

  lemma ThreeReady(e: Env, before: seq<Action>, p: State, a: Args) returns (as_: seq<Action>, s: State)
    requires Spent(e, before, p, U64_MAX - 1) && ArgsOk(e.g, a)
    ensures Reached(e, as_, s) && Inv(e, s) && s.sh.reserve == U64_MAX - 1
    ensures s.threads == map[0 := Start(AppendCall(a)), 1 := Start(AppendCall(a)), 2 := Start(AppendCall(a))]
  {
    hide Inv, Reached;
    InvOk(e, p);
    OneMore(e, before, p, Invoke(0, AppendCall(a)));
    var s0 := Do(e, p, Invoke(0, AppendCall(a)));
    as_ := before + [Invoke(0, AppendCall(a))];
    InvOk(e, s0);
    OneMore(e, as_, s0, Invoke(1, AppendCall(a)));
    var s1 := Do(e, s0, Invoke(1, AppendCall(a)));
    as_ := as_ + [Invoke(1, AppendCall(a))];
    InvOk(e, s1);
    OneMore(e, as_, s1, Invoke(2, AppendCall(a)));
    s := Do(e, s1, Invoke(2, AppendCall(a)));
    as_ := as_ + [Invoke(2, AppendCall(a))];
  }

  lemma SecondGetsZero(e: Env, s: State, a: Args)
    requires SharedOk(e, s.sh) && s.sh.reserve == 0 && ArgsOk(e.g, a) && 2 in s.threads
    requires s.threads[2] == Start(AppendCall(a))
    ensures Enabled(e, s, Step(2)) && Do(e, s, Step(2)).threads[2] == Body(0, a, 0)
  {
    hide BodyOps;
  }
}
