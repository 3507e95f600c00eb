/** Health-gated submitter failover (reverse/promoter.go). */
module Promoters {

  /** The promoter's two streak counters, the role it sets, and how often it set it. */
  datatype Role = Role(fails: nat, oks: nat, active: bool, promotions: nat, demotions: nat)

  datatype Config = Config(failN: int, okN: int) {
    /** Non-positive thresholds fall back to the defaults. */
    function FailN(): (n: nat)
      ensures n >= 1 && (failN > 0 ==> n == failN) && (failN <= 0 ==> n == 5)
    {
      if failN <= 0 then 5 else failN
    }

    function OkN(): (n: nat)
      ensures n >= 1 && (okN > 0 ==> n == okN) && (okN <= 0 ==> n == 10)
    {
      if okN <= 0 then 10 else okN
    }
  }

  function Step(r: Role, ok: bool, c: Config): Role {
    if ok then
      var s := r.(fails := 0, oks := r.oks + 1);
      if s.oks >= c.OkN() && r.active then s.(active := false, demotions := r.demotions + 1) else s
    else
      var s := r.(oks := 0, fails := r.fails + 1);
      if s.fails >= c.FailN() && !r.active then s.(active := true, promotions := r.promotions + 1) else s
  }

  /** The role after a probe trace, from standby. */
  function Run(probes: seq<bool>, c: Config): Role {
    if probes == [] then Role(0, 0, false, 0, 0)
    else Step(Run(probes[..|probes| - 1], c), probes[|probes| - 1], c)
  }

  /** `n` consecutive probes with result `v` end just before `i`. */
  ghost predicate Streak(probes: seq<bool>, v: bool, n: nat, i: int) {
    n <= i <= |probes| && forall m :: i - n <= m < i ==> probes[m] == v
  }

  /** Some run of failures has no later run of successes. */
  ghost predicate Unanswered(probes: seq<bool>, c: Config) {
    exists i :: Streak(probes, false, c.FailN(), i) && forall j :: j > i ==> !Streak(probes, true, c.OkN(), j)
  }

  lemma {:induction false} CountersAreStreaks(probes: seq<bool>, c: Config, n: nat)
    ensures Streak(probes, false, n, |probes|) <==> n <= Run(probes, c).fails
    ensures Streak(probes, true, n, |probes|) <==> n <= Run(probes, c).oks
  {
    if probes != [] {
      var init, last := probes[..|probes| - 1], probes[|probes| - 1];
      if n > 0 {
        CountersAreStreaks(init, c, n - 1);
        StreakExtends(init, last, false, n);
        StreakExtends(init, last, true, n);
        assert init + [last] == probes;
      }
    }
  }

  lemma StreakExtends(init: seq<bool>, last: bool, v: bool, n: nat)
    requires n > 0
    ensures Streak(init + [last], v, n, |init| + 1) <==> last == v && Streak(init, v, n - 1, |init|)
  {
    var all := init + [last];
    if Streak(all, v, n, |all|) {
      assert all[|init|] == v;
      forall m | |init| - (n - 1) <= m < |init| ensures init[m] == v { assert all[m] == init[m]; }
    }
  }

  lemma StreakIsLocal(init: seq<bool>, last: bool, v: bool, n: nat, i: nat)
    requires i <= |init|
    ensures Streak(init + [last], v, n, i) <==> Streak(init, v, n, i)
  {
    assert forall m :: 0 <= m < |init| ==> (init + [last])[m] == init[m];
  }

  lemma UnansweredExtends(init: seq<bool>, last: bool, c: Config)
    ensures Unanswered(init + [last], c) <==>
      if Streak(init + [last], true, c.OkN(), |init| + 1) then false
      else Streak(init + [last], false, c.FailN(), |init| + 1) || Unanswered(init, c)
  {
    var all := init + [last];
    var n := |init| + 1;
    forall i: nat, v | i <= |init|
      ensures Streak(all, v, c.FailN(), i) == Streak(init, v, c.FailN(), i)
      ensures Streak(all, v, c.OkN(), i) == Streak(init, v, c.OkN(), i)
    {
      StreakIsLocal(init, last, v, c.FailN(), i);
      StreakIsLocal(init, last, v, c.OkN(), i);
    }
    StreakExtends(init, last, true, c.OkN());
    StreakExtends(init, last, false, c.FailN());
    if Unanswered(all, c) {
      var i :| Streak(all, false, c.FailN(), i) && forall j :: j > i ==> !Streak(all, true, c.OkN(), j);
      if i <= |init| {
        forall j | j > i ensures !Streak(init, true, c.OkN(), j) {
          if j <= |init| { assert !Streak(all, true, c.OkN(), j); }
        }
        assert Streak(init, false, c.FailN(), i);
      }
    }
    if Unanswered(init, c) && !Streak(all, true, c.OkN(), n) {
      var i :| Streak(init, false, c.FailN(), i) && forall j :: j > i ==> !Streak(init, true, c.OkN(), j);
      forall j | j > i ensures !Streak(all, true, c.OkN(), j) {
        if j <= |init| { assert !Streak(init, true, c.OkN(), j); }
      }
      assert Streak(all, false, c.FailN(), i);
    }
    if Streak(all, false, c.FailN(), n) {
      assert forall j :: j > n ==> !Streak(all, true, c.OkN(), j);
    }
  }

  /** Hysteresis: after every probe trace the bridge publishes exactly when some run of `FailN`
      failures has not been answered by a later run of `OkN` successes. */
  lemma {:induction false} RoleIsHysteresis(probes: seq<bool>, c: Config)
    ensures Run(probes, c).active <==> Unanswered(probes, c)
  {
    if probes != [] {
      var init, last := probes[..|probes| - 1], probes[|probes| - 1];
      assert init + [last] == probes;
      RoleIsHysteresis(init, c);
      UnansweredExtends(init, last, c);
      CountersAreStreaks(probes, c, c.FailN());
      CountersAreStreaks(probes, c, c.OkN());
    }
  }

  /** The probe count at the last role change. */
  function LastFlip(probes: seq<bool>, c: Config): nat {
    if probes == [] then 0
    else
      var init := probes[..|probes| - 1];
      if Run(probes, c).active != Run(init, c).active then |probes| else LastFlip(init, c)
  }

  lemma {:induction false} FlipsPayTheirProbes(probes: seq<bool>, c: Config)
    ensures var r := Run(probes, c);
      && r.promotions * c.FailN() + r.demotions * c.OkN() <= LastFlip(probes, c)
      && LastFlip(probes, c) + (if r.active then r.oks else r.fails) <= |probes|
  {
    if probes != [] {
      var init := probes[..|probes| - 1];
      FlipsPayTheirProbes(init, c);
      var p := Run(init, c);
      assert (p.promotions + 1) * c.FailN() == p.promotions * c.FailN() + c.FailN();
      assert (p.demotions + 1) * c.OkN() == p.demotions * c.OkN() + c.OkN();
      StreakCap(init, c);
    }
  }

  /** In standby the failure streak is below its threshold, when active the success streak is. */
  lemma {:induction false} StreakCap(probes: seq<bool>, c: Config)
    ensures var r := Run(probes, c); if r.active then r.oks < c.OkN() else r.fails < c.FailN()
  {
    if probes != [] {
      StreakCap(probes[..|probes| - 1], c);
    }
  }

  /** The role cannot flap faster than its thresholds allow. */
  lemma FlapsAreBounded(probes: seq<bool>, c: Config)
    ensures var r := Run(probes, c); r.promotions * c.FailN() + r.demotions * c.OkN() <= |probes|
  {
    FlipsPayTheirProbes(probes, c);
  }

  class Subscriber {
    var active: bool

    constructor ()
      ensures !active
    {
      active := false;
    }

    /** The watch loop over a trace of probe results; nothing else sets the role meanwhile. */
    method RunPromoter(probes: seq<bool>, c: Config) returns (promotions: nat, demotions: nat)
      requires !active
      modifies this
      ensures active == Run(probes, c).active
      ensures promotions == Run(probes, c).promotions && demotions == Run(probes, c).demotions
      ensures active <==> Unanswered(probes, c)
    {
      var fails, oks := 0, 0;
      promotions, demotions := 0, 0;
      for i := 0 to |probes|
        invariant Role(fails, oks, active, promotions, demotions) == Run(probes[..i], c)
      {
        assert probes[..i + 1][..i] == probes[..i];
        if probes[i] {
          fails, oks := 0, oks + 1;
          if oks >= c.OkN() && active {
            active := false;
            demotions := demotions + 1;
          }
          continue;
        }
        oks, fails := 0, fails + 1;
        if fails >= c.FailN() && !active {
          active := true;
          promotions := promotions + 1;
        }
      }
      assert probes[..|probes|] == probes;
      RoleIsHysteresis(probes, c);
    }
  }
}
