/** The objective guard at the level of calls: for a given list of nodes, whatever their
    dispersions, and exactly when the reported objective cannot rise. */
module ObjectiveRises {
  import opened Prelude
  import opened Dicts
  import opened Schema
  import opened Separable
  import opened BranchCost
  import opened AllocatorSpec
  import opened AllocatorTheorems
  import opened FeasibilityRepair
  import opened NeverWorse

  /** The key that a configured weight is read from. */
  function WeightKeys(cfg: Config): set<string> {
    if cfg.weightKey.Some? then {cfg.weightKey.value} else {}
  }

  /** The same node, up to where the allocator reads its dispersion. */
  predicate OnlyDispersion(f: Fields, g: Fields, cfg: Config) {
    && g == f.(vdraDispersionC := g.vdraDispersionC, numbers := g.numbers)
    && g.numbers - WeightKeys(cfg) == f.numbers - WeightKeys(cfg)
  }

  /** The same nodes, up to the dispersions they hold. */
  predicate OnlyDispersions(fs: seq<Fields>, gs: seq<Fields>, cfg: Config) {
    |gs| == |fs| && forall i :: 0 <= i < |fs| ==> OnlyDispersion(fs[i], gs[i], cfg)
  }

  predicate SameButDispersion(t: map<string, Limits>, u: map<string, Limits>) {
    t.Keys == u.Keys && forall k :: k in t ==> u[k] == t[k].(dispersion := u[k].dispersion)
  }

  lemma SameLimitsButOne(f: Fields, g: Fields, cfg: Config, i: nat)
    requires OnlyDispersion(f, g, cfg)
    ensures NodeId(g, i) == NodeId(f, i)
    ensures LimitsOf(g, cfg) == LimitsOf(f, cfg).(dispersion := LimitsOf(g, cfg).dispersion)
  {
    hide RawDispersion;
  }

  lemma {:induction false} SameTableButOne(fs: seq<Fields>, gs: seq<Fields>, cfg: Config)
    requires OnlyDispersions(fs, gs, cfg) && Intake(fs, cfg).Ok? && Intake(gs, cfg).Ok?
    ensures SameButDispersion(Intake(fs, cfg).value, Intake(gs, cfg).value)
  {
    hide NodeId;
    hide LimitsOf;
    hide RawDispersion;
    if fs != [] {
      var n := |fs| - 1;
      assert OnlyDispersions(fs[..n], gs[..n], cfg);
      SameTableButOne(fs[..n], gs[..n], cfg);
      SameLimitsButOne(fs[n], gs[n], cfg, n);
    }
  }

  lemma SameCaps(t: map<string, Limits>, u: map<string, Limits>, cfg: Config)
    requires SameButDispersion(t, u)
    ensures Lowers(u, cfg) == Lowers(t, cfg) && Defaults(u) == Defaults(t)
    ensures Uppers(u) == Uppers(t) && FinalUppers(u, cfg) == FinalUppers(t, cfg)
  {
    assert Lowers(u, cfg) == Lowers(t, cfg);
    assert Uppers(u) == Uppers(t);
    assert RepairedUppers(u, cfg) == RepairedUppers(t, cfg);
  }

  /** The bounds that a summary was made with. */
  ghost predicate SameSetting(s: Summary, r: Summary) {
    s.lower == r.lower && s.upper == r.upper && s.defaults == r.defaults && s.granted == r.granted
  }

  /** Dispersions have no say in the bounds. */
  lemma SameSettingForAll(fs: seq<Fields>, gs: seq<Fields>, cfg: Config, s: Summary, r: Summary)
    requires OnlyDispersions(fs, gs, cfg) && Allocate(fs, cfg) == Ok(s) && Allocate(gs, cfg) == Ok(r)
    ensures SameSetting(s, r)
  {
    hide Allocate;
    hide Intake;
    hide FinalUppers;
    hide SameButDispersion;
    SettingOf(fs, cfg, s);
    SettingOf(gs, cfg, r);
    SameTableButOne(fs, gs, cfg);
    SameCaps(Intake(fs, cfg).value, Intake(gs, cfg).value, cfg);
  }

  /** The nodes with these dispersions written onto them. */
  function Redispersed(fs: seq<Fields>, c: map<string, real>, cfg: Config): (gs: seq<Fields>)
    ensures OnlyDispersions(fs, gs, cfg)
    ensures forall i :: 0 <= i < |fs| && NodeId(fs[i], i) in c ==>
      gs[i] == WithDispersion(fs[i], c[NodeId(fs[i], i)], cfg)
  {
    seq(|fs|, i requires 0 <= i < |fs| =>
      if NodeId(fs[i], i) in c then WithDispersion(fs[i], c[NodeId(fs[i], i)], cfg) else fs[i])
  }

  /** A dispersion is written where it counts: without its weight a node goes by it. */
  function WithDispersion(f: Fields, v: real, cfg: Config): (g: Fields)
    ensures OnlyDispersion(f, g, cfg)
  {
    f.(vdraDispersionC := Some(v), numbers := f.numbers - WeightKeys(cfg))
  }

  lemma WrittenDispersion(f: Fields, v: real, cfg: Config)
    requires v >= 0.0
    ensures var g := WithDispersion(f, v, cfg); RawDispersion(g, cfg.weightKey) == v && LimitsOf(g, cfg).dispersion == v
  {
  }

  lemma RedispersedAt(fs: seq<Fields>, cfg: Config, c: map<string, real>, i: nat)
    requires i < |fs| && NodeId(fs[i], i) in c && c[NodeId(fs[i], i)] >= 0.0
    ensures var g := Redispersed(fs, c, cfg)[i];
      && NodeId(g, i) == NodeId(fs[i], i)
      && RawDispersion(g, cfg.weightKey) >= 0.0
      && LimitsOf(g, cfg).dispersion == c[NodeId(fs[i], i)]
  {
    hide NodeId;
    hide RawDispersion;
    hide LimitsOf;
    SameLimitsButOne(fs[i], Redispersed(fs, c, cfg)[i], cfg, i);
    WrittenDispersion(fs[i], c[NodeId(fs[i], i)], cfg);
  }

  /** The intake of the rewritten nodes: nothing but the dispersions is new. */
  lemma {:induction false} RedispersedIntake(fs: seq<Fields>, cfg: Config, c: map<string, real>)
    requires Intake(fs, cfg).Ok? && NonNegative(c, Intake(fs, cfg).value.Keys)
    ensures var gs := Redispersed(fs, c, cfg);
      && Intake(gs, cfg).Ok?
      && SameButDispersion(Intake(fs, cfg).value, Intake(gs, cfg).value)
      && Dispersions(Intake(gs, cfg).value) == c
  {
    hide Intake;
    hide NodeId;
    hide RawDispersion;
    hide LimitsOf;
    hide Redispersed;
    hide SameButDispersion;
    var gs := Redispersed(fs, c, cfg);
    IntakeDescribes(fs, cfg);
    forall i | 0 <= i < |fs|
      ensures NodeId(gs[i], i) == NodeId(fs[i], i) && NodeId(fs[i], i) in c
      ensures RawDispersion(gs[i], cfg.weightKey) >= 0.0 && LimitsOf(gs[i], cfg).dispersion == c[NodeId(fs[i], i)]
    {
      assert NodeId(fs[i], i) in Intake(fs, cfg).value;
      RedispersedAt(fs, cfg, c, i);
    }
    IntakeAccepts(fs, cfg);
    IntakeAccepts(gs, cfg);
    SameTableButOne(fs, gs, cfg);
    SameTableKeys(Intake(fs, cfg).value, Intake(gs, cfg).value);
    DispersionsAre(gs, cfg, c);
  }

  lemma SameTableKeys(t: map<string, Limits>, u: map<string, Limits>)
    requires SameButDispersion(t, u)
    ensures t.Keys == u.Keys
  {
  }

  lemma RedispersedAccepted(fs: seq<Fields>, cfg: Config, s: Summary, c: map<string, real>)
    requires Allocate(fs, cfg) == Ok(s) && NonNegative(c, s.lower.Keys)
    ensures Allocate(Redispersed(fs, c, cfg), cfg).Ok?
    ensures Allocate(Redispersed(fs, c, cfg), cfg).value.dispersion == c
  {
    hide Allocate;
    hide Intake;
    hide Redispersed;
    hide FinalUppers;
    hide DistinctIds;
    hide ValidDispersions;
    hide SameButDispersion;
    var gs := Redispersed(fs, c, cfg);
    SettingOf(fs, cfg, s);
    RedispersedIntake(fs, cfg, c);
    SameCaps(Intake(fs, cfg).value, Intake(gs, cfg).value, cfg);
    IntakeAccepts(gs, cfg);
    AllocateAccepts(fs, cfg);
    AllocateAccepts(gs, cfg);
    SettingOf(gs, cfg, Allocate(gs, cfg).value);
  }

  lemma {:induction false} DispersionsAre(gs: seq<Fields>, cfg: Config, c: map<string, real>)
    requires Intake(gs, cfg).Ok? && c.Keys == Intake(gs, cfg).value.Keys
    requires forall i :: 0 <= i < |gs| ==>
      NodeId(gs[i], i) in c && LimitsOf(gs[i], cfg).dispersion == c[NodeId(gs[i], i)]
    ensures Dispersions(Intake(gs, cfg).value) == c
  {
    hide Intake;
    hide NodeId;
    hide LimitsOf;
    IntakeDescribes(gs, cfg);
    var t := Intake(gs, cfg).value;
    forall k | k in t ensures t[k].dispersion == c[k] {
      var i :| 0 <= i < |gs| && NodeId(gs[i], i) == k;
    }
  }

  /** The objective that a call reports has risen above its reference. */
  ghost predicate Rises(gs: seq<Fields>, cfg: Config) {
    Allocate(gs, cfg).Ok? && Allocate(gs, cfg).value.objectiveAfter > Allocate(gs, cfg).value.objectiveBefore
  }

  /** The guard, as it can be checked before a call: bounds, defaults and spending are those of
      the intake. */
  ghost predicate Guarded(fs: seq<Fields>, cfg: Config)
    requires Intake(fs, cfg).Ok?
  {
    var t := Intake(fs, cfg).value;
    TableKeys(t, cfg);
    Comparable(Defaults(t), Lowers(t, cfg), FinalUppers(t, cfg), Spendable(t, cfg))
  }

  lemma {:induction false} GuardedIs(fs: seq<Fields>, cfg: Config, s: Summary)
    requires Allocate(fs, cfg) == Ok(s)
    ensures Intake(fs, cfg).Ok? && s.defaults.Keys == s.lower.Keys == s.upper.Keys
    ensures Guarded(fs, cfg) <==> Comparable(s.defaults, s.lower, s.upper, s.granted)
  {
    hide Allocate;
    hide Intake;
    hide Comparable;
    hide FinalUppers;
    SettingOf(fs, cfg, s);
    TableKeys(Intake(fs, cfg).value, cfg);
  }

  /** Where the guard fails the same nodes, with other dispersions, make the reported objective
      rise, under the same bounds. */
  lemma RisesOnCall(fs: seq<Fields>, cfg: Config) returns (gs: seq<Fields>)
    requires Allocate(fs, cfg).Ok? && Intake(fs, cfg).Ok? && !Guarded(fs, cfg)
    ensures OnlyDispersions(fs, gs, cfg) && Rises(gs, cfg)
    ensures SameSetting(Allocate(fs, cfg).value, Allocate(gs, cfg).value)
  {
    hide Allocate;
    hide Intake;
    hide After;
    hide Before;
    hide Comparable;
    hide Guarded;
    hide NonNegative;
    hide OnlyDispersions;
    var s := Allocate(fs, cfg).value;
    GuardedIs(fs, cfg, s);
    ObjectiveDoesNotRise(fs, cfg, s);
    NeverWorseIff(s.defaults, s.lower, s.upper, s.granted);
    var c :| NonNegative(c, s.lower.Keys)
      && After(c, s.lower, s.upper, s.granted) > Before(c, s.defaults, s.lower, s.upper, s.granted);
    gs := Redispersed(fs, c, cfg);
    RedispersedAccepted(fs, cfg, s, c);
    SameSettingForAll(fs, gs, cfg, s, Allocate(gs, cfg).value);
    ObjectiveDoesNotRise(gs, cfg, Allocate(gs, cfg).value);
  }

  /** For a list of nodes that is accepted: whatever dispersions they are given, no call
      reports a risen objective, if and only if the guard holds for their bounds. */
  lemma {:induction false} NeverRisesIff(fs: seq<Fields>, cfg: Config)
    requires Allocate(fs, cfg).Ok?
    ensures Intake(fs, cfg).Ok?
    ensures (forall gs :: OnlyDispersions(fs, gs, cfg) ==> !Rises(gs, cfg)) <==> Guarded(fs, cfg)
  {
    hide Allocate;
    hide Intake;
    hide Guarded;
    hide Comparable;
    hide OnlyDispersions;
    var s := Allocate(fs, cfg).value;
    GuardedIs(fs, cfg, s);
    if Guarded(fs, cfg) {
      forall gs | OnlyDispersions(fs, gs, cfg) ensures !Rises(gs, cfg) {
        if Allocate(gs, cfg).Ok? {
          SameSettingForAll(fs, gs, cfg, s, Allocate(gs, cfg).value);
          ObjectiveDoesNotRise(gs, cfg, Allocate(gs, cfg).value);
        }
      }
    } else {
      var gs := RisesOnCall(fs, cfg);
    }
  }
}
