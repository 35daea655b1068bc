/** Exploration and exploitation portfolio selection (scout_portfolio.py). Floats are reals;
    proposal ids are the numbers their 32 hexadecimal digits spell, which sort alike. */
module Portfolio {
  import opened Wrappers
  import opened Collections
  import Strings

  type Id = nat

  datatype Proposal = Proposal(
    id: Id, program: string, asset: string, category: string,
    impact: real, confidence: real, novelty: real, hypothesis: string)

  datatype Decision = Eligible | BlockedScope | LowEvidence | ProgramExcluded | BelowThreshold
                    | IdentityUnavailable | ProgramBudgetExceeded

  datatype Triage = Triage(decision: Decision, estimatedCost: real, calibrated: Option<real>)

  datatype Item = Item(proposal: Proposal, triage: Triage) {
    function Confidence(): real {
      if triage.calibrated.Some? then triage.calibrated.value else proposal.confidence
    }
  }

  datatype Stage = HighestEv | HighImpact | Novel | Exploration
  datatype Reason = Quota(stage: Stage) | DiversityFallback
  datatype Member = Member(item: Item, reason: Reason)

  const STAGES: seq<Stage> := [HighestEv, HighImpact, Novel, Exploration]

  /** The configured `score`. */
  type Strategy = Item -> real

  /** One value for each stage, in place of the dictionaries keyed by stage name. */
  datatype PerStage<T> = PerStage(highestEv: T, highImpact: T, novel: T, exploration: T) {
    function At(s: Stage): T {
      match s
      case HighestEv => highestEv
      case HighImpact => highImpact
      case Novel => novel
      case Exploration => exploration
    }
  }

  function Total(q: PerStage<int>): int {
    q.highestEv + q.highImpact + q.novel + q.exploration
  }

  function RealTotal(q: PerStage<real>): real {
    q.highestEv + q.highImpact + q.novel + q.exploration
  }

  datatype Policy = Policy(ratios: PerStage<real>, maxPerAssetCategory: int, perProgramCap: Option<int>) {
    /** The checks of `__post_init__`. */
    predicate Valid() {
      && 0.0 <= ratios.highestEv && 0.0 <= ratios.highImpact && 0.0 <= ratios.novel && 0.0 <= ratios.exploration
      && -0.000000001 <= RealTotal(ratios) - 1.0 <= 0.000000001
      && 1 <= maxPerAssetCategory
      && (perProgramCap.Some? ==> 1 <= perProgramCap.value)
    }
  }

  // ----- Quotas -----

  function Shares(p: Policy, slots: nat): PerStage<real> {
    var x := slots as real;
    PerStage(x * p.ratios.highestEv, x * p.ratios.highImpact, x * p.ratios.novel, x * p.ratios.exploration)
  }

  function Floors(raw: PerStage<real>): PerStage<int> {
    PerStage(raw.highestEv.Floor, raw.highImpact.Floor, raw.novel.Floor, raw.exploration.Floor)
  }

  function Remainder(x: real): real {
    x - x.Floor as real
  }

  /** Rank of a stage's name among the four names, alphabetically. */
  function NameRank(s: Stage): nat {
    match s
    case Exploration => 0
    case HighImpact => 1
    case HighestEv => 2
    case Novel => 3
  }

  /** Descending by (remainder, ratio, name). */
  function RemainderOrder(raw: PerStage<real>, ratios: PerStage<real>): (Stage, Stage) -> bool {
    (a: Stage, b: Stage) =>
      var (ra, rb) := (Remainder(raw.At(a)), Remainder(raw.At(b)));
      ra > rb || (ra == rb && (ratios.At(a) > ratios.At(b) || (ratios.At(a) == ratios.At(b)
                                                               && NameRank(a) >= NameRank(b))))
  }

  function Ranked(raw: PerStage<real>, ratios: PerStage<real>): (r: seq<Stage>)
    ensures |r| == 4
  {
    Sort(RemainderOrder(raw, ratios), STAGES)
  }

  lemma MulMonotone(a: real, x: real, y: real)
    requires 0.0 <= a && x <= y
    ensures a * x <= a * y
  {
    assert a * y - a * x == a * (y - x);
  }

  /** The shares are non-negative and add up to the slots, within the tolerance scaled by the slots. */
  ghost predicate SharesOf(raw: PerStage<real>, slots: nat) {
    && 0.0 <= raw.highestEv && 0.0 <= raw.highImpact && 0.0 <= raw.novel && 0.0 <= raw.exploration
    && slots as real - 0.000001 <= RealTotal(raw) <= slots as real + 0.000001
  }

  lemma MulNonNegative(a: real, x: real)
    requires 0.0 <= a && 0.0 <= x
    ensures 0.0 <= a * x
  {
  }

  lemma Distribute(x: real, a: real, b: real, c: real, d: real)
    ensures x * (a + b + c + d) == x * a + x * b + x * c + x * d
  {
  }

  lemma ScaledSum(x: real, a: real, b: real, c: real, d: real)
    requires 0.0 <= x <= 1000.0 && 0.0 <= a && 0.0 <= b && 0.0 <= c && 0.0 <= d
    requires 0.999999999 <= a + b + c + d <= 1.000000001
    ensures 0.0 <= x * a && 0.0 <= x * b && 0.0 <= x * c && 0.0 <= x * d
    ensures x - 0.000001 <= x * a + x * b + x * c + x * d <= x + 0.000001
  {
    MulNonNegative(x, a);
    MulNonNegative(x, b);
    MulNonNegative(x, c);
    MulNonNegative(x, d);
    ScaledTolerance(x, a + b + c + d);
    Distribute(x, a, b, c, d);
  }

  lemma MulBound(x: real, top: real, d: real, e: real)
    requires 0.0 <= x <= top && -e <= d <= e
    ensures -(top * e) <= x * d <= top * e
  {
    MulMonotone(x, d, e);
    MulMonotone(x, -e, d);
    MulMonotone(e, x, top);
  }

  lemma ScaledTolerance(x: real, sum: real)
    requires 0.0 <= x <= 1000.0 && 0.999999999 <= sum <= 1.000000001
    ensures x - 0.000001 <= x * sum <= x + 0.000001
  {
    MulBound(x, 1000.0, sum - 1.0, 0.000000001);
    assert x * sum == x + x * (sum - 1.0);
  }

  lemma SharesAddUp(p: Policy, slots: nat)
    requires p.Valid() && slots <= 1000
    ensures SharesOf(Shares(p, slots), slots)
  {
    ScaledSum(slots as real, p.ratios.highestEv, p.ratios.highImpact, p.ratios.novel, p.ratios.exploration);
  }

  /** How many stages get one unit more than their floor: rounding leaves between none and four. */
  function Extra(raw: PerStage<real>, slots: nat): (n: nat)
    requires SharesOf(raw, slots)
    ensures n <= 4
  {
    slots - Total(Floors(raw))
  }

  lemma RankedSorted(raw: PerStage<real>, ratios: PerStage<real>)
    ensures Distinct(Ranked(raw, ratios))
    ensures SortedBy(RemainderOrder(raw, ratios), Ranked(raw, ratios))
  {
    SortSorted(RemainderOrder(raw, ratios), STAGES);
    StagesComplete(Novel);
    SameMembers(Ranked(raw, ratios), STAGES);
  }

  lemma StagesComplete(s: Stage)
    ensures s in STAGES && Distinct(STAGES)
  {
    assert STAGES[0] == HighestEv && STAGES[1] == HighImpact && STAGES[2] == Novel && STAGES[3] == Exploration;
  }

  lemma RankedComplete(raw: PerStage<real>, ratios: PerStage<real>, s: Stage)
    ensures s in Ranked(raw, ratios)
  {
    StagesComplete(s);
    SameMembers(Ranked(raw, ratios), STAGES);
  }

  function Same(s: Stage, t: Stage): int {
    if s == t then 1 else 0
  }

  /** How often `s` occurs among the first `n` of `ranked`. */
  function Granted(ranked: seq<Stage>, n: nat, s: Stage): nat
    requires n <= |ranked|
  {
    if n == 0 then 0 else Granted(ranked, n - 1, s) + Same(ranked[n - 1], s)
  }

  lemma {:induction false} GrantedSum(ranked: seq<Stage>, n: nat)
    requires n <= |ranked|
    ensures Granted(ranked, n, HighestEv) + Granted(ranked, n, HighImpact) + Granted(ranked, n, Novel)
            + Granted(ranked, n, Exploration) == n
  {
    if n != 0 {
      GrantedSum(ranked, n - 1);
    }
  }

  lemma {:induction false} GrantedAt(ranked: seq<Stage>, n: nat, j: nat)
    requires n <= |ranked| && j < |ranked| && Distinct(ranked)
    ensures Granted(ranked, n, ranked[j]) == if j < n then 1 else 0
  {
    if n != 0 {
      GrantedAt(ranked, n - 1, j);
      assert ranked[n - 1] == ranked[j] <==> j == n - 1;
    }
  }

  /** Floors plus one unit for each of the first `n` of `ranked`. */
  function WithGrants(floors: PerStage<int>, ranked: seq<Stage>, n: nat): PerStage<int>
    requires n <= |ranked|
  {
    PerStage(floors.highestEv + Granted(ranked, n, HighestEv), floors.highImpact + Granted(ranked, n, HighImpact),
             floors.novel + Granted(ranked, n, Novel), floors.exploration + Granted(ranked, n, Exploration))
  }

  function Apportioned(raw: PerStage<real>, ratios: PerStage<real>, slots: nat): PerStage<int>
    requires SharesOf(raw, slots)
  {
    WithGrants(Floors(raw), Ranked(raw, ratios), Extra(raw, slots))
  }

  function Quotas(p: Policy, slots: nat): PerStage<int>
    requires p.Valid() && slots <= 1000
  {
    SharesAddUp(p, slots);
    Apportioned(Shares(p, slots), p.ratios, slots)
  }

  /** A stage gets one unit more than its floor exactly when it is among the first ranked. */
  lemma ApportionedAt(raw: PerStage<real>, ratios: PerStage<real>, slots: nat, s: Stage) returns (k: nat)
    requires SharesOf(raw, slots)
    ensures k < |Ranked(raw, ratios)| && Ranked(raw, ratios)[k] == s
    ensures Apportioned(raw, ratios, slots).At(s) == raw.At(s).Floor + if k < Extra(raw, slots) then 1 else 0
  {
    RankedSorted(raw, ratios);
    RankedComplete(raw, ratios, s);
    var ranked := Ranked(raw, ratios);
    k :| 0 <= k < |ranked| && ranked[k] == s;
    GrantedAt(ranked, Extra(raw, slots), k);
  }

  /** No stage denied an extra unit has a larger remainder than one granted it. */
  lemma RemaindersOrdered(raw: PerStage<real>, ratios: PerStage<real>, slots: nat, denied: Stage, granted: Stage)
    requires SharesOf(raw, slots)
    ensures var q := Apportioned(raw, ratios, slots);
            && q.At(denied) - raw.At(denied).Floor in {0, 1}
            && (q.At(denied) == raw.At(denied).Floor && q.At(granted) == raw.At(granted).Floor + 1
                ==> Remainder(raw.At(denied)) <= Remainder(raw.At(granted)))
  {
    var d := ApportionedAt(raw, ratios, slots, denied);
    var g := ApportionedAt(raw, ratios, slots, granted);
    RankedSorted(raw, ratios);
    if g < d {
      assert RemainderOrder(raw, ratios)(Ranked(raw, ratios)[g], Ranked(raw, ratios)[d]);
    }
  }

  /** Largest-remainder apportionment is exact: the quotas add up to the slots, each is its share's floor or
      one more, and extra units went to the largest remainders. */
  lemma QuotasApportion(p: Policy, slots: nat, denied: Stage, granted: Stage)
    requires p.Valid() && slots <= 1000
    ensures var (q, raw) := (Quotas(p, slots), Shares(p, slots));
            && Total(q) == slots
            && 0 <= q.At(denied)
            && raw.At(denied).Floor <= q.At(denied) <= raw.At(denied).Floor + 1
            && (q.At(denied) == raw.At(denied).Floor && q.At(granted) == raw.At(granted).Floor + 1
                ==> Remainder(raw.At(denied)) <= Remainder(raw.At(granted)))
  {
    SharesAddUp(p, slots);
    var raw := Shares(p, slots);
    GrantedSum(Ranked(raw, p.ratios), Extra(raw, slots));
    RemaindersOrdered(raw, p.ratios, slots, denied, granted);
  }

  /** What a stage is called. */
  function NameOf(s: Stage): string {
    match s
    case HighestEv => "highest_ev"
    case HighImpact => "high_impact_low_confidence"
    case Novel => "novel"
    case Exploration => "exploration"
  }

  function RatioOf(p: Policy, s: Stage): real {
    match s
    case HighestEv => p.ratios.highestEv
    case HighImpact => p.ratios.highImpact
    case Novel => p.ratios.novel
    case Exploration => p.ratios.exploration
  }

  function QuotaOf(q: PerStage<int>, s: Stage): int {
    match s
    case HighestEv => q.highestEv
    case HighImpact => q.highImpact
    case Novel => q.novel
    case Exploration => q.exploration
  }

  /** A stage's share of the slots. */
  function ShareOf(p: Policy, slots: nat, s: Stage): real {
    slots as real * RatioOf(p, s)
  }

  /** Descending by the fraction left over, then by ratio, then by name. */
  predicate Outranks(p: Policy, slots: nat, a: Stage, b: Stage) {
    var x, y := ShareOf(p, slots, a), ShareOf(p, slots, b);
    var f, g := x - x.Floor as real, y - y.Floor as real;
    f > g || (f == g && (RatioOf(p, a) > RatioOf(p, b)
                         || (RatioOf(p, a) == RatioOf(p, b) && Strings.Leq(NameOf(b), NameOf(a)))))
  }

  lemma NamesRank(a: Stage, b: Stage)
    ensures NameRank(a) >= NameRank(b) <==> Strings.Leq(NameOf(b), NameOf(a))
  {
    var ev, impact, novel, explore := NameOf(HighestEv), NameOf(HighImpact), NameOf(Novel), NameOf(Exploration);
    assert ev[0] == 'h' && impact[0] == 'h' && novel[0] == 'n' && explore[0] == 'e';
    assert ev[1] == impact[1] == 'i' && ev[2] == impact[2] == 'g' && ev[3] == impact[3] == 'h';
    assert ev[4] == 'e' && impact[4] == '_';
    SharedPrefix(ev, impact, 4);
    SharedPrefix(impact, ev, 4);
    Strings.LeqTotal(ev, ev);
    Strings.LeqTotal(impact, impact);
    Strings.LeqTotal(novel, novel);
    Strings.LeqTotal(explore, explore);
  }

  /** Names with a common beginning compare by what follows. */
  lemma {:induction false} SharedPrefix(a: string, b: string, n: nat)
    requires n < |a| && n < |b| && a[..n] == b[..n] && a[n] != b[n]
    ensures Strings.Leq(a, b) <==> a[n] < b[n]
  {
    if n > 0 {
      assert a[0] == a[..n][0] == b[..n][0] == b[0];
      assert a[1..][..n - 1] == a[..n][1..] && b[1..][..n - 1] == b[..n][1..];
      SharedPrefix(a[1..], b[1..], n - 1);
    }
  }

  lemma OrderRead(raw: PerStage<real>, ratios: PerStage<real>, a: Stage, b: Stage)
    ensures var f, g := Remainder(raw.At(a)), Remainder(raw.At(b));
            RemainderOrder(raw, ratios)(a, b)
            <==> f > g || (f == g && (ratios.At(a) > ratios.At(b)
                                      || (ratios.At(a) == ratios.At(b) && NameRank(a) >= NameRank(b))))
  {
  }

  lemma FractionRead(p: Policy, slots: nat, s: Stage)
    ensures var x := ShareOf(p, slots, s);
            Remainder(Shares(p, slots).At(s)) == x - x.Floor as real && p.ratios.At(s) == RatioOf(p, s)
  {
    SharesRead(p, slots, s);
  }

  lemma RemainderRead(p: Policy, slots: nat, a: Stage, b: Stage)
    ensures RemainderOrder(Shares(p, slots), p.ratios)(a, b) <==> Outranks(p, slots, a, b)
  {
    NamesRank(a, b);
    FractionRead(p, slots, a);
    FractionRead(p, slots, b);
    OrderRead(Shares(p, slots), p.ratios, a, b);
  }

  lemma GrantedFirst(raw: PerStage<real>, ratios: PerStage<real>, slots: nat, granted: Stage, denied: Stage)
    requires SharesOf(raw, slots)
    requires Apportioned(raw, ratios, slots).At(granted) == raw.At(granted).Floor + 1
    requires Apportioned(raw, ratios, slots).At(denied) == raw.At(denied).Floor
    ensures RemainderOrder(raw, ratios)(granted, denied)
  {
    var d := ApportionedAt(raw, ratios, slots, denied);
    var g := ApportionedAt(raw, ratios, slots, granted);
    RankedSorted(raw, ratios);
    assert g < d;
    assert RemainderOrder(raw, ratios)(Ranked(raw, ratios)[g], Ranked(raw, ratios)[d]);
  }

  /** A quota is the whole part of its stage's share of the slots, or one more, and a stage is given one more only if it
      outranks every stage that is not. */
  lemma QuotasRead(p: Policy, slots: nat, a: Stage, b: Stage)
    requires p.Valid() && slots <= 1000
    ensures var q, x, y := Quotas(p, slots), ShareOf(p, slots, a), ShareOf(p, slots, b);
            && q.highestEv + q.highImpact + q.novel + q.exploration == slots
            && QuotaOf(q, a) - x.Floor in {0, 1}
            && (QuotaOf(q, a) == x.Floor + 1 && QuotaOf(q, b) == y.Floor ==> Outranks(p, slots, a, b))
  {
    SharesAddUp(p, slots);
    QuotasApportion(p, slots, a, b);
    SharesRead(p, slots, a);
    SharesRead(p, slots, b);
    var raw := Shares(p, slots);
    if Quotas(p, slots).At(a) == raw.At(a).Floor + 1 && Quotas(p, slots).At(b) == raw.At(b).Floor {
      GrantedFirst(raw, p.ratios, slots, a, b);
      RemainderRead(p, slots, a, b);
    }
  }

  lemma SharesRead(p: Policy, slots: nat, s: Stage)
    ensures Shares(p, slots).At(s) == ShareOf(p, slots, s) && p.ratios.At(s) == RatioOf(p, s)
    ensures forall q: PerStage<int> :: q.At(s) == QuotaOf(q, s)
  {
  }

  /** `_quotas`: floors first, then one unit to each of the best remainders. */
  method ComputeQuotas(p: Policy, slots: nat) returns (q: PerStage<int>)
    requires p.Valid() && slots <= 1000
    ensures q == Quotas(p, slots)
  {
    SharesAddUp(p, slots);
    q := Apportion(Shares(p, slots), p.ratios, slots);
  }

  function Bumped(q: PerStage<int>, s: Stage): PerStage<int> {
    match s
    case HighestEv => q.(highestEv := q.highestEv + 1)
    case HighImpact => q.(highImpact := q.highImpact + 1)
    case Novel => q.(novel := q.novel + 1)
    case Exploration => q.(exploration := q.exploration + 1)
  }

  lemma GrantOne(floors: PerStage<int>, ranked: seq<Stage>, n: nat)
    requires n < |ranked|
    ensures WithGrants(floors, ranked, n + 1) == Bumped(WithGrants(floors, ranked, n), ranked[n])
  {
    assert forall s: Stage :: Granted(ranked, n + 1, s) == Granted(ranked, n, s) + Same(ranked[n], s);
  }

  method Apportion(raw: PerStage<real>, ratios: PerStage<real>, slots: nat) returns (q: PerStage<int>)
    requires SharesOf(raw, slots)
    ensures q == Apportioned(raw, ratios, slots)
  {
    q := Floors(raw);
    var ranked, extra := Ranked(raw, ratios), Extra(raw, slots);
    for i := 0 to extra
      invariant q == WithGrants(Floors(raw), ranked, i)
    {
      GrantOne(Floors(raw), ranked, i);
      q := Bumped(q, ranked[i]);
    }
  }

  // ----- Selection -----

  type Members = seq<Member>

  function Ids(sel: Members): (r: set<Id>) {
    set m | m in sel :: m.item.proposal.id
  }

  function Categories(sel: Members): set<string> {
    set m | m in sel :: m.item.proposal.category
  }

  /** Members of `sel` on this asset in this category. */
  function PairCount(sel: Members, asset: string, category: string): nat {
    if sel == [] then 0
    else PairCount(sel[..|sel| - 1], asset, category)
         + var p := sel[|sel| - 1].item.proposal; if p.asset == asset && p.category == category then 1 else 0
  }

  function ProgramCount(sel: Members, program: string): nat {
    if sel == [] then 0
    else ProgramCount(sel[..|sel| - 1], program) + if sel[|sel| - 1].item.proposal.program == program then 1 else 0
  }

  predicate AtCap(p: Policy, sel: Members, i: Item) {
    || PairCount(sel, i.proposal.asset, i.proposal.category) >= p.maxPerAssetCategory
    || (p.perProgramCap.Some? && ProgramCount(sel, i.proposal.program) >= p.perProgramCap.value)
  }

  predicate CanAdd(p: Policy, sel: Members, i: Item) {
    i.proposal.id !in Ids(sel) && !AtCap(p, sel, i)
  }

  /** One quota stage over the rest of its list, `filled` members into its quota. The quota is looked at only
      after an addition, so a stage whose quota is zero still admits one item. */
  function Fill(p: Policy, sel: Members, list: seq<Item>, stage: Stage, quota: int, filled: nat): Members
    decreases |list|
  {
    if list == [] then sel
    else if stage.Novel? && list[0].proposal.category in Categories(sel) then
      Fill(p, sel, list[1..], stage, quota, filled)
    else if !CanAdd(p, sel, list[0]) then Fill(p, sel, list[1..], stage, quota, filled)
    else
      var grown := sel + [Member(list[0], Quota(stage))];
      if filled + 1 >= quota then grown else Fill(p, grown, list[1..], stage, quota, filled + 1)
  }

  /** The pass that ignores quotas and stops at `slots`. */
  function Fallback(p: Policy, sel: Members, list: seq<Item>, slots: nat): Members
    decreases |list|
  {
    if list == [] || |sel| >= slots then sel
    else Fallback(p, if CanAdd(p, sel, list[0]) then sel + [Member(list[0], DiversityFallback)] else sel,
                  list[1..], slots)
  }

  /** The four candidate orders of a selection. */
  type Orders = PerStage<seq<Item>>

  function Staged(p: Policy, lists: Orders, q: PerStage<int>): Members {
    var a := Fill(p, [], lists.highestEv, HighestEv, q.highestEv, 0);
    var b := Fill(p, a, lists.highImpact, HighImpact, q.highImpact, 0);
    var c := Fill(p, b, lists.novel, Novel, q.novel, 0);
    Fill(p, c, lists.exploration, Exploration, q.exploration, 0)
  }

  function Selected(p: Policy, lists: Orders, q: PerStage<int>, slots: nat): Members {
    Fallback(p, Staged(p, lists, q), lists.highestEv, slots)
  }

  // ----- What every addition keeps -----

  /** Distinct members, no (asset, category) pair and no program over its cap. */
  ghost predicate Capped(p: Policy, sel: Members) {
    && (forall i, j :: 0 <= i < j < |sel| ==> sel[i].item.proposal.id != sel[j].item.proposal.id)
    && (forall asset, category :: PairCount(sel, asset, category) <= p.maxPerAssetCategory)
    && (p.perProgramCap.Some? ==> forall program :: ProgramCount(sel, program) <= p.perProgramCap.value)
  }

  lemma CappedEmpty(p: Policy)
    requires p.Valid()
    ensures Capped(p, [])
  {
    assert forall asset, category :: PairCount([], asset, category) == 0;
    assert forall program :: ProgramCount([], program) == 0;
  }

  lemma CappedGrows(p: Policy, sel: Members, i: Item, r: Reason)
    requires Capped(p, sel) && CanAdd(p, sel, i)
    ensures Capped(p, sel + [Member(i, r)])
  {
    var grown := sel + [Member(i, r)];
    assert grown[..|grown| - 1] == sel;
    forall k | 0 <= k < |sel| ensures sel[k].item.proposal.id != i.proposal.id {
      assert sel[k] in sel;
    }
    forall program | p.perProgramCap.Some? ensures ProgramCount(grown, program) <= p.perProgramCap.value {
      assert ProgramCount(sel, program) <= p.perProgramCap.value;
    }
  }

  /** `longer` continues `sel` with items of `list`, chosen for `reason`. */
  ghost predicate Continues(sel: Members, longer: Members, list: seq<Item>, reason: Reason) {
    && |sel| <= |longer| && longer[..|sel|] == sel
    && forall k | |sel| <= k < |longer| :: longer[k].item in list && longer[k].reason == reason
  }

  /** Continuing after one more member is continuing. */
  lemma ContinuesAfter(sel: Members, m: Member, longer: Members, list: seq<Item>)
    requires list != [] && m.item == list[0]
    requires Continues(sel + [m], longer, list[1..], m.reason)
    ensures Continues(sel, longer, list, m.reason)
    ensures longer[|sel|] == m
  {
    var grown := sel + [m];
    assert longer[..|sel|] == longer[..|grown|][..|sel|] == sel;
    assert longer[|sel|] == longer[..|grown|][|sel|] == m;
    forall k | |sel| <= k < |longer| ensures longer[k].item in list && longer[k].reason == m.reason {
      if k != |sel| {
        assert longer[k].item in list[1..];
      }
    }
  }

  lemma ContinuesLater(sel: Members, longer: Members, list: seq<Item>, reason: Reason)
    requires list != [] && Continues(sel, longer, list[1..], reason)
    ensures Continues(sel, longer, list, reason)
  {
    assert forall x | x in list[1..] :: x in list;
  }

  predicate Skips(p: Policy, sel: Members, i: Item, stage: Stage) {
    (stage.Novel? && i.proposal.category in Categories(sel)) || !CanAdd(p, sel, i)
  }

  lemma {:induction false} FillCapped(p: Policy, sel: Members, list: seq<Item>, stage: Stage, quota: int, filled: nat)
    requires Capped(p, sel)
    ensures Capped(p, Fill(p, sel, list, stage, quota, filled))
    decreases |list|
  {
    if list == [] {
    } else if Skips(p, sel, list[0], stage) {
      FillCapped(p, sel, list[1..], stage, quota, filled);
    } else {
      CappedGrows(p, sel, list[0], Quota(stage));
      FillCapped(p, sel + [Member(list[0], Quota(stage))], list[1..], stage, quota, filled + 1);
    }
  }

  /** How many more members a stage may add: its quota's rest, but never less than one. */
  function Room(quota: int, filled: nat): nat {
    if quota - filled >= 1 then quota - filled else 1
  }

  lemma {:induction false} FillContinues(p: Policy, sel: Members, list: seq<Item>, stage: Stage, quota: int,
                                         filled: nat)
    ensures Continues(sel, Fill(p, sel, list, stage, quota, filled), list, Quota(stage))
    ensures |Fill(p, sel, list, stage, quota, filled)| <= |sel| + Room(quota, filled)
    decreases |list|
  {
    if list == [] {
    } else if Skips(p, sel, list[0], stage) {
      FillContinues(p, sel, list[1..], stage, quota, filled);
      ContinuesLater(sel, Fill(p, sel, list[1..], stage, quota, filled), list, Quota(stage));
    } else {
      var m := Member(list[0], Quota(stage));
      var grown := sel + [m];
      if filled + 1 < quota {
        FillContinues(p, grown, list[1..], stage, quota, filled + 1);
        ContinuesAfter(sel, m, Fill(p, grown, list[1..], stage, quota, filled + 1), list);
      } else {
        ContinuesAfter(sel, m, grown, list);
      }
    }
  }

  lemma {:induction false} FallbackCapped(p: Policy, sel: Members, list: seq<Item>, slots: nat)
    requires Capped(p, sel)
    ensures Capped(p, Fallback(p, sel, list, slots))
    decreases |list|
  {
    if list != [] && |sel| < slots {
      if CanAdd(p, sel, list[0]) {
        CappedGrows(p, sel, list[0], DiversityFallback);
        FallbackCapped(p, sel + [Member(list[0], DiversityFallback)], list[1..], slots);
      } else {
        FallbackCapped(p, sel, list[1..], slots);
      }
    }
  }

  lemma {:induction false} FallbackContinues(p: Policy, sel: Members, list: seq<Item>, slots: nat)
    ensures Continues(sel, Fallback(p, sel, list, slots), list, DiversityFallback)
    ensures |Fallback(p, sel, list, slots)| <= if |sel| <= slots then slots else |sel|
    decreases |list|
  {
    if list != [] && |sel| < slots {
      if CanAdd(p, sel, list[0]) {
        var m := Member(list[0], DiversityFallback);
        FallbackContinues(p, sel + [m], list[1..], slots);
        ContinuesAfter(sel, m, Fallback(p, sel + [m], list[1..], slots), list);
      } else {
        FallbackContinues(p, sel, list[1..], slots);
        ContinuesLater(sel, Fallback(p, sel, list[1..], slots), list, DiversityFallback);
      }
    }
  }

  /** Caps only ever fill up. */
  lemma {:induction false} CountsGrow(p: Policy, sel: Members, longer: Members)
    requires |sel| <= |longer| && longer[..|sel|] == sel
    ensures Ids(sel) <= Ids(longer)
    ensures forall i :: AtCap(p, sel, i) ==> AtCap(p, longer, i)
    decreases |longer|
  {
    if |sel| == |longer| {
      assert sel == longer;
    } else {
      var shorter := longer[..|longer| - 1];
      assert shorter[..|sel|] == sel;
      CountsGrow(p, sel, shorter);
      assert longer == shorter + [longer[|longer| - 1]];
      forall id | id in Ids(shorter) ensures id in Ids(longer) {
        var m :| m in shorter && m.item.proposal.id == id;
        assert m in longer;
      }
    }
  }

  /** An item the selection passed over: already a member, or at a cap. */
  predicate Settled(p: Policy, sel: Members, i: Item) {
    i.proposal.id in Ids(sel) || AtCap(p, sel, i)
  }

  /** Maximality: the fallback leaves an open slot only if nothing in its list could take it. */
  lemma {:induction false} FallbackMaximal(p: Policy, sel: Members, list: seq<Item>, slots: nat)
    requires Capped(p, sel)
    ensures |Fallback(p, sel, list, slots)| >= slots || forall i | i in list ::
            Settled(p, Fallback(p, sel, list, slots), i)
    decreases |list|
  {
    if list != [] && |sel| < slots {
      var next := if CanAdd(p, sel, list[0]) then sel + [Member(list[0], DiversityFallback)] else sel;
      if CanAdd(p, sel, list[0]) {
        CappedGrows(p, sel, list[0], DiversityFallback);
        assert next[|sel|] in next;
      }
      FallbackContinues(p, next, list[1..], slots);
      FallbackMaximal(p, next, list[1..], slots);
      CountsGrow(p, next, Fallback(p, next, list[1..], slots));
      assert Settled(p, next, list[0]);
      assert forall i | i in list :: i == list[0] || i in list[1..];
    }
  }

  // ----- The whole selection -----

  /** Items the triager found eligible, in order. */
  function EligibleItems(items: seq<Item>): (r: seq<Item>)
    ensures forall i :: i in r <==> i in items && i.triage.decision.Eligible?
  {
    Filter((i: Item) => i.triage.decision.Eligible?, items)
  }

  /** Keys compared lexicographically, smallest first, then by id. */
  function KeyOrder(key: Item -> (real, real, real)): (Item, Item) -> bool {
    (a: Item, b: Item) =>
      var (ka, kb) := (key(a), key(b));
      ka.0 < kb.0 || (ka.0 == kb.0 && (ka.1 < kb.1 || (ka.1 == kb.1 && (ka.2 < kb.2 || (ka.2 == kb.2
        && a.proposal.id <= b.proposal.id)))))
  }

  function ByExpectedValue(score: Strategy): (Item, Item) -> bool {
    KeyOrder((i: Item) => (-score(i), 0.0, 0.0))
  }

  function ByImpact(): (Item, Item) -> bool {
    KeyOrder((i: Item) => (-(i.proposal.impact * (1.0 - i.Confidence())), -i.proposal.impact, i.Confidence()))
  }

  function ByNovelty(): (Item, Item) -> bool {
    KeyOrder((i: Item) => (-i.proposal.novelty, 0.0, 0.0))
  }

  /** The stage lists; `shuffled` is whatever the seeded shuffle made of the eligible items. */
  function StageLists(score: Strategy, eligible: seq<Item>, shuffled: seq<Item>): Orders {
    PerStage(Sort(ByExpectedValue(score), eligible), Sort(ByImpact(), eligible), Sort(ByNovelty(), eligible), shuffled)
  }

  /** The members before any review. */
  function Chosen(p: Policy, score: Strategy, items: seq<Item>, shuffled: seq<Item>, slots: nat): Members
    requires p.Valid() && slots <= 1000
  {
    var eligible := EligibleItems(items);
    Selected(p, StageLists(score, eligible, shuffled), Quotas(p, if |eligible| < slots then |eligible|
                                                              else slots), slots)
  }

  /** The four orders of one selection all list the same items. */
  ghost predicate SameItems(lists: Orders, eligible: seq<Item>) {
    && multiset(lists.highestEv) == multiset(eligible)
    && multiset(lists.highImpact) == multiset(eligible)
    && multiset(lists.novel) == multiset(eligible)
    && multiset(lists.exploration) == multiset(eligible)
  }

  lemma StagedKeeps(p: Policy, lists: Orders, q: PerStage<int>)
    requires p.Valid()
    ensures Capped(p, Staged(p, lists, q))
    ensures forall m | m in Staged(p, lists, q) ::
              m.item in lists.highestEv || m.item in lists.highImpact || m.item in lists.novel
                || m.item in lists.exploration
    ensures |Staged(p, lists, q)| <= Room(q.highestEv, 0) + Room(q.highImpact, 0) + Room(q.novel, 0)
            + Room(q.exploration, 0)
  {
    CappedEmpty(p);
    var a := Fill(p, [], lists.highestEv, HighestEv, q.highestEv, 0);
    FillCapped(p, [], lists.highestEv, HighestEv, q.highestEv, 0);
    FillContinues(p, [], lists.highestEv, HighestEv, q.highestEv, 0);
    var b := Fill(p, a, lists.highImpact, HighImpact, q.highImpact, 0);
    FillCapped(p, a, lists.highImpact, HighImpact, q.highImpact, 0);
    FillContinues(p, a, lists.highImpact, HighImpact, q.highImpact, 0);
    var c := Fill(p, b, lists.novel, Novel, q.novel, 0);
    FillCapped(p, b, lists.novel, Novel, q.novel, 0);
    FillContinues(p, b, lists.novel, Novel, q.novel, 0);
    var d := Fill(p, c, lists.exploration, Exploration, q.exploration, 0);
    FillCapped(p, c, lists.exploration, Exploration, q.exploration, 0);
    FillContinues(p, c, lists.exploration, Exploration, q.exploration, 0);
    MembersOf(c, d, lists.exploration, Quota(Exploration));
    MembersOf(b, c, lists.novel, Quota(Novel));
    MembersOf(a, b, lists.highImpact, Quota(HighImpact));
    MembersOf([], a, lists.highestEv, Quota(HighestEv));
  }

  lemma MembersOf(sel: Members, longer: Members, list: seq<Item>, reason: Reason)
    requires Continues(sel, longer, list, reason)
    ensures forall m | m in longer :: m in sel || (m.item in list && m.reason == reason)
  {
    forall m | m in longer ensures m in sel || (m.item in list && m.reason == reason) {
      var k :| 0 <= k < |longer| && longer[k] == m;
      assert k < |sel| ==> longer[..|sel|][k] == m;
    }
  }

  /** Capped and maximal: members are distinct, eligible and within every cap, and an open slot is left
      only if every eligible item is a member or at a cap. The size is bounded by the slots and, when some
      quota is zero, by one member for each such stage. */
  lemma SelectedSound(p: Policy, lists: Orders, eligible: seq<Item>, q: PerStage<int>, slots: nat)
    requires p.Valid() && SameItems(lists, eligible)
    ensures Capped(p, Selected(p, lists, q, slots))
    ensures forall m | m in Selected(p, lists, q, slots) :: m.item in eligible
    ensures |Selected(p, lists, q, slots)| >= slots || forall i | i in eligible ::
            Settled(p, Selected(p, lists, q, slots), i)
    ensures |Selected(p, lists, q, slots)| <= slots
            || |Selected(p, lists, q, slots)| <= Room(q.highestEv, 0) + Room(q.highImpact, 0) + Room(q.novel, 0)
              + Room(q.exploration, 0)
  {
    SameMembers(lists.highestEv, eligible);
    SameMembers(lists.highImpact, eligible);
    SameMembers(lists.novel, eligible);
    SameMembers(lists.exploration, eligible);
    StagedKeeps(p, lists, q);
    var staged := Staged(p, lists, q);
    FallbackCapped(p, staged, lists.highestEv, slots);
    FallbackContinues(p, staged, lists.highestEv, slots);
    FallbackMaximal(p, staged, lists.highestEv, slots);
    MembersOf(staged, Selected(p, lists, q, slots), lists.highestEv, DiversityFallback);
  }

  /** With four positive quotas the stages cannot overrun the slots they add up to. */
  lemma PositiveQuotasFit(p: Policy, lists: Orders, eligible: seq<Item>, n: nat, slots: nat)
    requires p.Valid() && SameItems(lists, eligible) && n <= slots <= 1000
    requires forall s: Stage :: 0 < Quotas(p, n).At(s)
    ensures |Selected(p, lists, Quotas(p, n), slots)| <= slots
  {
    var q := Quotas(p, n);
    SelectedSound(p, lists, eligible, q, slots);
    QuotasApportion(p, n, Novel, Novel);
    assert 0 < q.At(HighestEv) && 0 < q.At(HighImpact) && 0 < q.At(Novel) && 0 < q.At(Exploration);
  }

  // ----- When a selection can overrun its slots -----

  function Name(n: nat): (s: string)
    ensures |s| == n
  {
    seq(n, _ => 'x')
  }

  /** An eligible item that shares its asset, category and program with no other of its kind. */
  function Loner(n: nat): Item {
    Item(Proposal(n, Name(n), Name(n), Name(n), 0.0, 0.0, 0.0, ""), Triage(Eligible, 0.0, None))
  }

  ghost predicate LonersOnly(sel: Members) {
    forall m | m in sel :: m.item == Loner(m.item.proposal.id)
  }

  lemma NamesDiffer(a: nat, b: nat)
    requires a != b
    ensures Name(a) != Name(b)
  {
    assert |Name(a)| != |Name(b)|;
  }

  lemma {:induction false} LonerCounts(sel: Members, n: nat)
    requires LonersOnly(sel) && n !in Ids(sel)
    ensures PairCount(sel, Name(n), Name(n)) == 0 && ProgramCount(sel, Name(n)) == 0
    ensures Name(n) !in Categories(sel)
  {
    if sel != [] {
      var front, last := sel[..|sel| - 1], sel[|sel| - 1];
      assert sel == front + [last];
      assert forall m | m in front :: m in sel;
      assert last in sel;
      LonerCounts(front, n);
      assert last.item.proposal.id in Ids(sel);
      NamesDiffer(last.item.proposal.id, n);
      forall m | m in sel ensures m.item.proposal.category != Name(n) {
        assert m.item.proposal.id in Ids(sel);
        NamesDiffer(m.item.proposal.id, n);
      }
    }
  }

  /** How many items of `list` have an id outside `taken`. */
  function Fresh(taken: set<Id>, list: seq<Item>): nat {
    if list == [] then 0 else (if list[0].proposal.id in taken then 0 else 1) + Fresh(taken, list[1..])
  }

  ghost predicate DistinctIds(list: seq<Item>) {
    forall i, j :: 0 <= i < j < |list| ==> list[i].proposal.id != list[j].proposal.id
  }

  lemma {:induction false} FreshIgnores(taken: set<Id>, id: Id, list: seq<Item>)
    requires forall i | i in list :: i.proposal.id != id
    ensures Fresh(taken + {id}, list) == Fresh(taken, list)
  {
    if list != [] {
      assert list[0] in list;
      FreshIgnores(taken, id, list[1..]);
    }
  }

  lemma {:induction false} FreshAtLeast(taken: set<Id>, list: seq<Item>)
    requires DistinctIds(list)
    ensures Fresh(taken, list) >= |list| - |taken|
  {
    if list != [] {
      var id, rest := list[0].proposal.id, list[1..];
      assert DistinctIds(rest) by { assert forall k :: 0 <= k < |rest| ==> rest[k] == list[k + 1]; }
      HeadIdGone(list);
      if id in taken {
        FreshIgnores(taken - {id}, id, rest);
        assert taken - {id} + {id} == taken;
        FreshAtLeast(taken - {id}, rest);
      } else {
        FreshAtLeast(taken, rest);
      }
    }
  }

  lemma HeadIdGone(list: seq<Item>)
    requires list != [] && DistinctIds(list)
    ensures forall i | i in list[1..] :: i.proposal.id != list[0].proposal.id
  {
    forall i | i in list[1..] ensures i.proposal.id != list[0].proposal.id {
      var k :| 0 <= k < |list[1..]| && list[1..][k] == i;
      assert list[k + 1] == i;
    }
  }

  /** Among loners a stage takes as many as its room and its list allow. */
  lemma {:induction false} FillLoners(p: Policy, sel: Members, list: seq<Item>, stage: Stage, quota: int, filled: nat)
    requires p.Valid() && LonersOnly(sel) && DistinctIds(list) && forall i | i in list :: i == Loner(i.proposal.id)
    ensures LonersOnly(Fill(p, sel, list, stage, quota, filled))
    ensures |Fill(p, sel, list, stage, quota, filled)|
            == |sel| + if Fresh(Ids(sel), list) < Room(quota, filled) then Fresh(Ids(sel), list)
              else Room(quota, filled)
    decreases |list|
  {
    if list != [] {
      var i, rest := list[0], list[1..];
      assert i in list;
      assert DistinctIds(rest) by { assert forall k :: 0 <= k < |rest| ==> rest[k] == list[k + 1]; }
      if i.proposal.id in Ids(sel) {
        FillLoners(p, sel, rest, stage, quota, filled);
      } else {
        LonerCounts(sel, i.proposal.id);
        var grown := sel + [Member(i, Quota(stage))];
        assert Ids(grown) == Ids(sel) + {i.proposal.id} by { IdsGrow(sel, Member(i, Quota(stage))); }
        HeadIdGone(list);
        FreshIgnores(Ids(sel), i.proposal.id, rest);
        FillLoners(p, grown, rest, stage, quota, filled + 1);
      }
    }
  }

  lemma IdsGrow(sel: Members, m: Member)
    ensures Ids(sel + [m]) == Ids(sel) + {m.item.proposal.id}
  {
    var grown := sel + [m];
    assert grown[|sel|] == m;
    forall id | id in Ids(sel) ensures id in Ids(grown) {
      var k :| k in sel && k.item.proposal.id == id;
      assert k in grown;
    }
  }

  lemma {:induction false} IdsSize(sel: Members)
    ensures |Ids(sel)| <= |sel|
  {
    if sel != [] {
      IdsSize(sel[..|sel| - 1]);
      IdsGrow(sel[..|sel| - 1], sel[|sel| - 1]);
      assert sel == sel[..|sel| - 1] + [sel[|sel| - 1]];
    }
  }

  /** A stage over enough loners fills all its room. */
  lemma FillRoom(p: Policy, sel: Members, list: seq<Item>, stage: Stage, quota: int)
    requires p.Valid() && LonersOnly(sel) && DistinctIds(list) && forall i | i in list :: i == Loner(i.proposal.id)
    requires |sel| + Room(quota, 0) <= |list|
    ensures LonersOnly(Fill(p, sel, list, stage, quota, 0))
    ensures |Fill(p, sel, list, stage, quota, 0)| == |sel| + Room(quota, 0)
  {
    FillLoners(p, sel, list, stage, quota, 0);
    FreshAtLeast(Ids(sel), list);
    IdsSize(sel);
  }

  function Loners(n: nat): (r: seq<Item>)
    ensures |r| == n
    ensures forall i :: 0 <= i < n ==> r[i] == Loner(i)
  {
    seq(n, i requires 0 <= i => Loner(i))
  }

  lemma {:induction false} FilterAll<T(!new)>(keep: T -> bool, s: seq<T>)
    requires forall x | x in s :: keep(x)
    ensures Filter(keep, s) == s
  {
    if s != [] {
      assert s == s[..|s| - 1] + [s[|s| - 1]];
      FilterAll(keep, s[..|s| - 1]);
    }
  }

  lemma PermutedLoners(n: nat, list: seq<Item>)
    requires multiset(list) == multiset(Loners(n))
    ensures |list| == n && DistinctIds(list) && forall i | i in list :: i == Loner(i.proposal.id)
  {
    var all := Loners(n);
    assert Distinct(all);
    SameMembers(list, all);
    forall i | i in list ensures i == Loner(i.proposal.id) {
      assert i in all;
    }
    forall i, j | 0 <= i < j < |list| ensures list[i].proposal.id != list[j].proposal.id {
      assert list[i] != list[j];
      assert list[i] in list && list[j] in list;
    }
  }

  /** However scored and shuffled, no list of items makes the selection exceed its slots. */
  ghost predicate NeverOverruns(p: Policy, slots: nat)
    requires p.Valid() && slots <= 1000
  {
    forall score: Strategy, items, shuffled | multiset(shuffled) == multiset(EligibleItems(items)) ::
      Fits(p, score, items, shuffled, slots)
  }

  predicate Fits(p: Policy, score: Strategy, items: seq<Item>, shuffled: seq<Item>, slots: nat)
    requires p.Valid() && slots <= 1000
  {
    |Chosen(p, score, items, shuffled, slots)| <= slots
  }

  /** The exact condition under which a selection always holds at most `slots` members: every stage's quota is
      positive. A stage with quota zero still admits one item, and `slots + 4` unrelated items show it. */
  lemma NeverOverrunsExactly(p: Policy, slots: nat)
    requires p.Valid() && slots <= 1000
    ensures NeverOverruns(p, slots) <==> forall s: Stage :: 0 < Quotas(p, slots).At(s)
  {
    if NeverOverruns(p, slots) {
      NoZeroQuota(p, slots);
    }
    if forall s: Stage :: 0 < Quotas(p, slots).At(s) {
      AlwaysFits(p, slots);
    }
  }

  /** Any list that does not fit refutes it. */
  lemma Refuted(p: Policy, slots: nat, score: Strategy, items: seq<Item>, shuffled: seq<Item>)
    requires p.Valid() && slots <= 1000 && multiset(shuffled) == multiset(EligibleItems(items))
    requires !Fits(p, score, items, shuffled, slots)
    ensures !NeverOverruns(p, slots)
  {
  }

  lemma ZeroQuotaOverruns(p: Policy, slots: nat, s: Stage, score: Strategy)
    requires p.Valid() && slots <= 1000 && Quotas(p, slots).At(s) <= 0
    ensures !NeverOverruns(p, slots)
  {
    var items := Loners(slots + 4);
    OverrunExample(p, score, slots, s);
    Refuted(p, slots, score, items, items);
  }

  lemma NoZeroQuota(p: Policy, slots: nat)
    requires p.Valid() && slots <= 1000 && NeverOverruns(p, slots)
    ensures forall s: Stage :: 0 < Quotas(p, slots).At(s)
  {
    forall s: Stage ensures 0 < Quotas(p, slots).At(s) {
      if Quotas(p, slots).At(s) <= 0 {
        ZeroQuotaOverruns(p, slots, s, (_: Item) => 0.0);
      }
    }
  }

  lemma AlwaysFits(p: Policy, slots: nat)
    requires p.Valid() && slots <= 1000 && forall s: Stage :: 0 < Quotas(p, slots).At(s)
    ensures NeverOverruns(p, slots)
  {
    forall score: Strategy, items, shuffled | multiset(shuffled) == multiset(EligibleItems(items))
      ensures Fits(p, score, items, shuffled, slots)
    {
      ChosenFits(p, score, items, shuffled, slots);
    }
  }

  lemma ChosenFits(p: Policy, score: Strategy, items: seq<Item>, shuffled: seq<Item>, slots: nat)
    requires p.Valid() && slots <= 1000 && multiset(shuffled) == multiset(EligibleItems(items))
    requires forall s: Stage :: 0 < Quotas(p, slots).At(s)
    ensures |Chosen(p, score, items, shuffled, slots)| <= slots
  {
    var eligible := EligibleItems(items);
    var lists := StageLists(score, eligible, shuffled);
    if |eligible| < slots {
      SelectedSound(p, lists, eligible, Quotas(p, |eligible|), slots);
      MembersFitList(p, Chosen(p, score, items, shuffled, slots), eligible);
    } else {
      PositiveQuotasFit(p, lists, eligible, slots, slots);
    }
  }

  /** Distinct members drawn from a list are no more than the list. */
  lemma MembersFitList(p: Policy, sel: Members, list: seq<Item>)
    requires Capped(p, sel) && forall m | m in sel :: m.item in list
    ensures |sel| <= |list|
  {
    var chosen := seq(|sel|, i requires 0 <= i < |sel| => sel[i].item);
    forall i, j | 0 <= i < j < |chosen| ensures chosen[i] != chosen[j] {
      assert sel[i].item.proposal.id != sel[j].item.proposal.id;
    }
    ElementsSize(chosen);
    ElementsSize(list);
    forall x | x in chosen ensures x in list {
      var i :| 0 <= i < |chosen| && chosen[i] == x;
      assert sel[i] in sel;
    }
    SubsetSize(Elements(chosen), Elements(list));
  }

  /** The witness: `slots + 4` unrelated items, under any strategy. */
  lemma OverrunExample(p: Policy, score: Strategy, slots: nat, s: Stage)
    requires p.Valid() && slots <= 1000 && Quotas(p, slots).At(s) <= 0
    ensures multiset(Loners(slots + 4)) == multiset(EligibleItems(Loners(slots + 4)))
    ensures |Chosen(p, score, Loners(slots + 4), Loners(slots + 4), slots)| > slots
  {
    var items := Loners(slots + 4);
    FilterAll((i: Item) => i.triage.decision.Eligible?, items);
    RoomsBound(p, slots, s);
    OverrunWitness(p, score, slots, Quotas(p, slots), items);
  }

  /** Loners only, each once. */
  ghost predicate LonerList(list: seq<Item>, n: nat) {
    |list| == n && DistinctIds(list) && forall i | i in list :: i == Loner(i.proposal.id)
  }

  ghost predicate LonerOrders(lists: Orders, n: nat) {
    && LonerList(lists.highestEv, n) && LonerList(lists.highImpact, n) && LonerList(lists.novel, n)
    && LonerList(lists.exploration, n)
  }

  lemma LonerStages(score: Strategy, items: seq<Item>, n: nat)
    requires items == Loners(n)
    ensures LonerOrders(StageLists(score, items, items), n)
  {
    var lists := StageLists(score, items, items);
    PermutedLoners(n, lists.highestEv);
    PermutedLoners(n, lists.highImpact);
    PermutedLoners(n, lists.novel);
    PermutedLoners(n, lists.exploration);
  }

  lemma OverrunWitness(p: Policy, score: Strategy, slots: nat, q: PerStage<int>, items: seq<Item>)
    requires p.Valid() && slots < Rooms(q) <= slots + 4 && items == Loners(slots + 4)
    ensures |Selected(p, StageLists(score, items, items), q, slots)| > slots
  {
    LonerStages(score, items, slots + 4);
    SelectedFull(p, StageLists(score, items, items), q, slots, slots + 4);
  }

  lemma SelectedFull(p: Policy, lists: Orders, q: PerStage<int>, slots: nat, n: nat)
    requires p.Valid() && slots < Rooms(q) <= n && LonerOrders(lists, n)
    ensures |Selected(p, lists, q, slots)| > slots
  {
    StagedFull(p, lists, q, n);
    FallbackFull(p, Staged(p, lists, q), lists.highestEv, slots);
  }

  lemma FallbackFull(p: Policy, sel: Members, list: seq<Item>, slots: nat)
    requires |sel| >= slots
    ensures Fallback(p, sel, list, slots) == sel
  {
  }

  function Rooms(q: PerStage<int>): nat {
    Room(q.highestEv, 0) + Room(q.highImpact, 0) + Room(q.novel, 0) + Room(q.exploration, 0)
  }

  lemma RoomsBound(p: Policy, slots: nat, zero: Stage)
    requires p.Valid() && slots <= 1000 && Quotas(p, slots).At(zero) <= 0
    ensures slots < Rooms(Quotas(p, slots)) <= slots + 4
  {
    QuotasApportion(p, slots, HighestEv, HighestEv);
    QuotasApportion(p, slots, HighImpact, HighImpact);
    QuotasApportion(p, slots, Novel, Novel);
    QuotasApportion(p, slots, Exploration, Exploration);
  }

  lemma StagedFull(p: Policy, lists: Orders, q: PerStage<int>, n: nat)
    requires p.Valid() && Rooms(q) <= n && LonerOrders(lists, n)
    ensures |Staged(p, lists, q)| == Rooms(q)
  {
    var a := Fill(p, [], lists.highestEv, HighestEv, q.highestEv, 0);
    FillRoom(p, [], lists.highestEv, HighestEv, q.highestEv);
    var b := Fill(p, a, lists.highImpact, HighImpact, q.highImpact, 0);
    FillRoom(p, a, lists.highImpact, HighImpact, q.highImpact);
    var c := Fill(p, b, lists.novel, Novel, q.novel, 0);
    FillRoom(p, b, lists.novel, Novel, q.novel);
    FillRoom(p, c, lists.exploration, Exploration, q.exploration);
  }

  // ----- Exploitation is greedy -----

  lemma KeyOrderTotal(key: Item -> (real, real, real))
    ensures TotalPreorder(KeyOrder(key))
  {
  }

  /** Whatever ranks before a member a sorted stage added is settled when the stage is over. */
  lemma {:induction false} FillGreedy(p: Policy, sel: Members, list: seq<Item>, stage: Stage, quota: int, filled: nat,
                                      leq: (Item, Item) -> bool, k: nat, x: Item)
    requires !stage.Novel? && SortedBy(leq, list) && (forall i | i in list :: leq(i, i))
    requires |sel| <= k < |Fill(p, sel, list, stage, quota, filled)|
    requires x in list && !leq(Fill(p, sel, list, stage, quota, filled)[k].item, x)
    ensures Settled(p, Fill(p, sel, list, stage, quota, filled), x)
    decreases |list|
  {
    var r, rest := Fill(p, sel, list, stage, quota, filled), list[1..];
    assert SortedBy(leq, rest) by {
      assert forall k :: 0 <= k < |rest| ==> rest[k] == list[k + 1];
    }
    assert forall i | i in rest :: i in list;
    HeadSettled(p, sel, list, stage, quota, filled);
    if x != list[0] {
      assert x in rest;
      if CanAdd(p, sel, list[0]) {
        var m := Member(list[0], Quota(stage));
        HeadFirst(leq, list);
        FillGreedy(p, sel + [m], rest, stage, quota, filled + 1, leq, k, x);
      } else {
        FillGreedy(p, sel, rest, stage, quota, filled, leq, k, x);
      }
    }
  }

  /** The first item of a stage's list is settled when the stage is over. */
  lemma HeadSettled(p: Policy, sel: Members, list: seq<Item>, stage: Stage, quota: int, filled: nat)
    requires list != [] && !stage.Novel?
    ensures Settled(p, Fill(p, sel, list, stage, quota, filled), list[0])
    ensures CanAdd(p, sel, list[0]) ==>
              var r := Fill(p, sel, list, stage, quota, filled);
              |sel| < |r| && r[|sel|] == Member(list[0], Quota(stage))
  {
    var r := Fill(p, sel, list, stage, quota, filled);
    FillContinues(p, sel, list, stage, quota, filled);
    CountsGrow(p, sel, r);
    if CanAdd(p, sel, list[0]) {
      var m := Member(list[0], Quota(stage));
      FillContinues(p, sel + [m], list[1..], stage, quota, filled + 1);
      if filled + 1 < quota {
        ContinuesAfter(sel, m, r, list);
      }
      assert r[|sel|] == m && m in r;
    }
  }

  lemma HeadFirst(leq: (Item, Item) -> bool, list: seq<Item>)
    requires list != [] && SortedBy(leq, list) && leq(list[0], list[0])
    ensures forall x | x in list :: leq(list[0], x)
  {
    forall x | x in list ensures leq(list[0], x) {
      var k :| 0 <= k < |list| && list[k] == x;
      assert k == 0 || leq(list[0], list[k]);
    }
  }

  /** An eligible item that ranks strictly above one the exploitation stage chose was itself chosen, or is at a
      cap: the stage never passes over a better item for any other reason. */
  lemma ExploitationGreedy(p: Policy, score: Strategy, items: seq<Item>, shuffled: seq<Item>, slots: nat, m: Member,
                           x: Item)
    requires p.Valid() && slots <= 1000
    requires m in Chosen(p, score, items, shuffled, slots) && m.reason == Quota(HighestEv)
    requires x in EligibleItems(items) && score(x) > score(m.item)
    ensures Settled(p, Chosen(p, score, items, shuffled, slots), x)
  {
    var eligible := EligibleItems(items);
    SelectedGreedy(p, score, eligible, shuffled, Quotas(p, if |eligible| < slots then |eligible|
                                                        else slots), slots, m, x);
  }

  lemma SelectedGreedy(p: Policy, score: Strategy, eligible: seq<Item>, shuffled: seq<Item>, q: PerStage<int>,
                       slots: nat, m: Member, x: Item)
    requires m in Selected(p, StageLists(score, eligible, shuffled), q, slots) && m.reason == Quota(HighestEv)
    requires x in eligible && score(x) > score(m.item)
    ensures Settled(p, Selected(p, StageLists(score, eligible, shuffled), q, slots), x)
  {
    var lists, leq := StageLists(score, eligible, shuffled), ByExpectedValue(score);
    KeyOrderTotal((i: Item) => (-score(i), 0.0, 0.0));
    SortSorted(leq, eligible);
    SameMembers(lists.highestEv, eligible);
    var a, r := Fill(p, [], lists.highestEv, HighestEv, q.highestEv, 0), Selected(p, lists, q, slots);
    StagePrefix(p, lists, q, slots);
    var k :| 0 <= k < |r| && r[k] == m;
    assert a[k].item == m.item;
    FillGreedy(p, [], lists.highestEv, HighestEv, q.highestEv, 0, leq, k, x);
    CountsGrow(p, a, r);
  }

  /** The exploitation stage's members come first, and no other member has its reason. */
  lemma StagePrefix(p: Policy, lists: Orders, q: PerStage<int>, slots: nat)
    ensures var (a, r) := (Fill(p, [], lists.highestEv, HighestEv, q.highestEv, 0), Selected(p, lists, q, slots));
            && |a| <= |r| && r[..|a|] == a
            && forall k | 0 <= k < |r| && r[k].reason == Quota(HighestEv) :: k < |a| && a[k] == r[k]
  {
    var a := Fill(p, [], lists.highestEv, HighestEv, q.highestEv, 0);
    var b := Fill(p, a, lists.highImpact, HighImpact, q.highImpact, 0);
    var c := Fill(p, b, lists.novel, Novel, q.novel, 0);
    var d := Fill(p, c, lists.exploration, Exploration, q.exploration, 0);
    var e := Fallback(p, d, lists.highestEv, slots);
    FillContinues(p, a, lists.highImpact, HighImpact, q.highImpact, 0);
    FillContinues(p, b, lists.novel, Novel, q.novel, 0);
    FillContinues(p, c, lists.exploration, Exploration, q.exploration, 0);
    FallbackContinues(p, d, lists.highestEv, slots);
    ReasonsAfter(a, a, b, lists.highImpact, Quota(HighImpact));
    ReasonsAfter(a, b, c, lists.novel, Quota(Novel));
    ReasonsAfter(a, c, d, lists.exploration, Quota(Exploration));
    ReasonsAfter(a, d, e, lists.highestEv, DiversityFallback);
  }

  ghost predicate OnlyFirst(a: Members, sel: Members) {
    && |a| <= |sel| && sel[..|a|] == a
    && forall k | |a| <= k < |sel| :: sel[k].reason != Quota(HighestEv)
  }

  lemma ReasonsAfter(a: Members, sel: Members, longer: Members, list: seq<Item>, reason: Reason)
    requires OnlyFirst(a, sel) && Continues(sel, longer, list, reason) && reason != Quota(HighestEv)
    ensures OnlyFirst(a, longer)
  {
    assert longer[..|a|] == longer[..|sel|][..|a|] == a;
    forall k | |a| <= k < |longer| ensures longer[k].reason != Quota(HighestEv) {
      assert k < |sel| ==> longer[..|sel|][k] == sel[k];
    }
  }

  // ----- Which items a selection takes -----

  /** The confidence a selection goes by. */
  function ConfidenceOf(i: Item): real {
    match i.triage.calibrated
    case Some(c) => c
    case None => i.proposal.confidence
  }

  /** `x` comes before `y` among the candidates of a stage: by expected value; by impact and lack of confidence
      together, then by impact, then by lack of confidence; by novelty. Ties go by id. */
  predicate AheadOf(s: Stage, score: Strategy, x: Item, y: Item) {
    var a, b := x.proposal, y.proposal;
    match s
    case HighestEv => score(x) > score(y) || (score(x) == score(y) && a.id < b.id)
    case HighImpact =>
      var v, w := a.impact * (1.0 - ConfidenceOf(x)), b.impact * (1.0 - ConfidenceOf(y));
      v > w || (v == w && (a.impact > b.impact || (a.impact == b.impact &&
                (ConfidenceOf(x) < ConfidenceOf(y) || (ConfidenceOf(x) == ConfidenceOf(y) && a.id < b.id)))))
    case Novel => a.novelty > b.novelty || (a.novelty == b.novelty && a.id < b.id)
    case Exploration => false
  }

  /** The places of the members with an item's asset and category. */
  ghost function AlikeIn(before: Members, i: Item): set<int> {
    set k | 0 <= k < |before| && before[k].item.proposal.asset == i.proposal.asset
            && before[k].item.proposal.category == i.proposal.category
  }

  /** The places of the members of an item's program. */
  ghost function FromProgram(before: Members, i: Item): set<int> {
    set k | 0 <= k < |before| && before[k].item.proposal.program == i.proposal.program
  }

  lemma {:induction false} AlikeCount(before: Members, i: Item)
    ensures PairCount(before, i.proposal.asset, i.proposal.category) == |AlikeIn(before, i)|
  {
    if before == [] {
      assert AlikeIn(before, i) == {};
    } else {
      var n := |before| - 1;
      AlikeCount(before[..n], i);
      AlikeLast(before, before[..n], i);
    }
  }

  lemma AlikeLast(before: Members, front: Members, i: Item)
    requires before != [] && front == before[..|before| - 1]
    ensures var last := before[|before| - 1].item.proposal;
            |AlikeIn(before, i)| == |AlikeIn(front, i)|
              + if last.asset == i.proposal.asset && last.category == i.proposal.category then 1 else 0
  {
    var n := |front|;
    var last := before[n].item.proposal;
    var more: set<int> := if last.asset == i.proposal.asset && last.category == i.proposal.category then {n} else {};
    assert AlikeIn(before, i) == AlikeIn(front, i) + more;
  }

  lemma {:induction false} ProgramsCount(before: Members, i: Item)
    ensures ProgramCount(before, i.proposal.program) == |FromProgram(before, i)|
  {
    if before == [] {
      assert FromProgram(before, i) == {};
    } else {
      var n := |before| - 1;
      ProgramsCount(before[..n], i);
      var more: set<int> := if before[n].item.proposal.program == i.proposal.program then {n} else {};
      assert FromProgram(before, i) == FromProgram(before[..n], i) + more;
    }
  }

  /** An item a stage cannot take after `before`: it is there already, its asset has enough of its category, its program
      is at its cap, or, in the novel stage, its category is there already. */
  ghost predicate Unfit(p: Policy, before: Members, i: Item, s: Stage) {
    || (exists k | 0 <= k < |before| :: before[k].item.proposal.id == i.proposal.id)
    || |AlikeIn(before, i)| >= p.maxPerAssetCategory
    || (p.perProgramCap.Some? && |FromProgram(before, i)| >= p.perProgramCap.value)
    || (s == Novel && exists k | 0 <= k < |before| :: before[k].item.proposal.category == i.proposal.category)
  }

  lemma UnfitSkips(p: Policy, before: Members, i: Item, s: Stage)
    ensures Unfit(p, before, i, s) <==> Skips(p, before, i, s)
  {
    AlikeCount(before, i);
    ProgramsCount(before, i);
    if i.proposal.id in Ids(before) {
      var m :| m in before && m.item.proposal.id == i.proposal.id;
      var k :| 0 <= k < |before| && before[k] == m;
    }
    if i.proposal.category in Categories(before) {
      var m :| m in before && m.item.proposal.category == i.proposal.category;
      var k :| 0 <= k < |before| && before[k] == m;
    }
    assert forall k | 0 <= k < |before| :: before[k] in before;
  }

  lemma SkipsLater(p: Policy, before: Members, longer: Members, i: Item, s: Stage)
    requires |before| <= |longer| && longer[..|before|] == before && Skips(p, before, i, s)
    ensures Skips(p, longer, i, s)
  {
    CountsGrow(p, before, longer);
    if i.proposal.category in Categories(before) {
      var m :| m in before && m.item.proposal.category == i.proposal.category;
      var k :| 0 <= k < |before| && before[k] == m;
      assert longer[k] == longer[..|before|][k];
    }
  }

  /** Member `j` is item `c` of the list, the first that could be taken after the members before it. */
  ghost predicate TurnAt(p: Policy, r: Members, list: seq<Item>, s: Stage, j: int, c: int) {
    && 0 <= j < |r| && 0 <= c < |list| && list[c] == r[j].item && !Skips(p, r[..j], list[c], s)
    && forall d | 0 <= d < c :: Skips(p, r[..j], list[d], s)
  }

  ghost predicate HasTurn(p: Policy, r: Members, list: seq<Item>, s: Stage, j: int) {
    exists c :: TurnAt(p, r, list, s, j, c)
  }

  ghost predicate NoneLeft(p: Policy, r: Members, list: seq<Item>, s: Stage) {
    forall d | 0 <= d < |list| :: Skips(p, r, list[d], s)
  }

  /** Every member from `n` on is the first of the list that could be taken. */
  ghost predicate InTurn(p: Policy, r: Members, list: seq<Item>, s: Stage, n: nat) {
    forall j | n <= j < |r| :: HasTurn(p, r, list, s, j)
  }

  lemma TurnLater(p: Policy, r: Members, list: seq<Item>, s: Stage, n: nat)
    requires list != [] && n <= |r| && InTurn(p, r, list[1..], s, n)
    requires forall j | n <= j <= |r| :: Skips(p, r[..j], list[0], s)
    ensures InTurn(p, r, list, s, n)
    ensures NoneLeft(p, r, list[1..], s) ==> NoneLeft(p, r, list, s)
  {
    forall j | n <= j < |r| ensures HasTurn(p, r, list, s, j) {
      assert HasTurn(p, r, list[1..], s, j);
      var c :| TurnAt(p, r, list[1..], s, j, c);
      forall d | 0 <= d < c + 1 ensures Skips(p, r[..j], list[d], s) {
        if d > 0 {
          assert list[d] == list[1..][d - 1];
        }
      }
      assert TurnAt(p, r, list, s, j, c + 1);
    }
    assert r[..|r|] == r;
    if NoneLeft(p, r, list[1..], s) {
      forall d | 0 <= d < |list| ensures Skips(p, r, list[d], s) {
        if d > 0 {
          assert list[d] == list[1..][d - 1];
        }
      }
    }
  }

  lemma SkippedSince(p: Policy, sel: Members, r: Members, i: Item, s: Stage, n: nat)
    requires |sel| == n <= |r| && r[..n] == sel && Skips(p, sel, i, s)
    ensures forall j | n <= j <= |r| :: Skips(p, r[..j], i, s)
  {
    forall j | n <= j <= |r| ensures Skips(p, r[..j], i, s) {
      assert r[..j][..n] == sel;
      SkipsLater(p, sel, r[..j], i, s);
    }
  }

  lemma TakenSkips(p: Policy, sel: Members, m: Member, s: Stage)
    ensures Skips(p, sel + [m], m.item, s)
  {
    assert (sel + [m])[|sel|] == m;
    assert m.item.proposal.id in Ids(sel + [m]);
  }

  /** Once the first of the list has been taken, what follows. */
  lemma TakenFirst(p: Policy, sel: Members, r: Members, list: seq<Item>, reason: Reason, s: Stage)
    requires list != [] && !Skips(p, sel, list[0], s)
    requires Continues(sel + [Member(list[0], reason)], r, list[1..], reason) && InTurn(p, r, list[1..], s, |sel| + 1)
    ensures Continues(sel, r, list, reason) && |r| > |sel| && InTurn(p, r, list, s, |sel|)
    ensures NoneLeft(p, r, list[1..], s) ==> NoneLeft(p, r, list, s)
  {
    var m := Member(list[0], reason);
    var grown := sel + [m];
    TakenSkips(p, sel, m, s);
    SkippedSince(p, grown, r, list[0], s, |grown|);
    TurnLater(p, r, list, s, |grown|);
    ContinuesAfter(sel, m, r, list);
    assert r[..|sel|] == sel;
    assert TurnAt(p, r, list, s, |sel|, 0);
  }

  lemma SkippedFirst(p: Policy, sel: Members, r: Members, list: seq<Item>, reason: Reason, s: Stage)
    requires list != [] && Skips(p, sel, list[0], s)
    requires Continues(sel, r, list[1..], reason) && InTurn(p, r, list[1..], s, |sel|)
    ensures Continues(sel, r, list, reason) && InTurn(p, r, list, s, |sel|)
    ensures NoneLeft(p, r, list[1..], s) ==> NoneLeft(p, r, list, s)
  {
    ContinuesLater(sel, r, list, reason);
    SkippedSince(p, sel, r, list[0], s, |sel|);
    TurnLater(p, r, list, s, |sel|);
  }

  /** A stage takes, again and again, the first of its list that it can, until its quota is met or none is left. */
  lemma {:induction false} FillInTurn(p: Policy, sel: Members, list: seq<Item>, stage: Stage, quota: int, filled: nat)
    ensures var r := Fill(p, sel, list, stage, quota, filled);
            && Continues(sel, r, list, Quota(stage)) && InTurn(p, r, list, stage, |sel|)
            && ((|r| > |sel| && filled + |r| - |sel| >= quota) || NoneLeft(p, r, list, stage))
    decreases |list|
  {
    var r := Fill(p, sel, list, stage, quota, filled);
    if list != [] {
      if Skips(p, sel, list[0], stage) {
        FillInTurn(p, sel, list[1..], stage, quota, filled);
        SkippedFirst(p, sel, r, list, Quota(stage), stage);
      } else {
        if filled + 1 < quota {
          FillInTurn(p, sel + [Member(list[0], Quota(stage))], list[1..], stage, quota, filled + 1);
        }
        TakenFirst(p, sel, r, list, Quota(stage), stage);
      }
    }
  }

  /** So does the fallback, over the stage's list, until the slots are used up. */
  lemma {:induction false} FallbackInTurn(p: Policy, sel: Members, list: seq<Item>, slots: nat)
    ensures var r := Fallback(p, sel, list, slots);
            && Continues(sel, r, list, DiversityFallback) && InTurn(p, r, list, HighestEv, |sel|)
            && (|r| >= slots || NoneLeft(p, r, list, HighestEv)) && (|r| > |sel| ==> |r| <= slots)
    decreases |list|
  {
    var r := Fallback(p, sel, list, slots);
    if list != [] && |sel| < slots {
      if Skips(p, sel, list[0], HighestEv) {
        FallbackInTurn(p, sel, list[1..], slots);
        SkippedFirst(p, sel, r, list, DiversityFallback, HighestEv);
      } else {
        FallbackInTurn(p, sel + [Member(list[0], DiversityFallback)], list[1..], slots);
        TakenFirst(p, sel, r, list, DiversityFallback, HighestEv);
      }
    }
  }

  /** Member `j` could be taken after those before it, and nothing the stage looks at earlier could. */
  ghost predicate TakenFor(p: Policy, score: Strategy, eligible: seq<Item>, shuffled: seq<Item>, sel: Members, s: Stage,
                           j: int)
    requires 0 <= j < |sel|
  {
    && sel[j].item in eligible && !Unfit(p, sel[..j], sel[j].item, s)
    && (forall x | x in eligible && AheadOf(s, score, x, sel[j].item) :: Unfit(p, sel[..j], x, s))
    && (s == Exploration ==> exists c :: FirstShuffled(p, sel, shuffled, j, c))
  }

  /** Among the shuffled items, member `j` is the first that could be taken. */
  ghost predicate FirstShuffled(p: Policy, sel: Members, shuffled: seq<Item>, j: int, c: int)
    requires 0 <= j < |sel|
  {
    && 0 <= c < |shuffled| && shuffled[c] == sel[j].item
    && forall d | 0 <= d < c :: Unfit(p, sel[..j], shuffled[d], Exploration)
  }

  ghost predicate NothingFits(p: Policy, eligible: seq<Item>, before: Members, s: Stage) {
    forall x | x in eligible :: Unfit(p, before, x, s)
  }

  /** The members from `lo` to `hi` are what a stage takes: at most its quota, or one if it has none, and fewer only
      when nothing more fits. */
  ghost predicate StageRun(p: Policy, score: Strategy, eligible: seq<Item>, shuffled: seq<Item>, sel: Members, lo: nat,
                           hi: nat, s: Stage, quota: int)
    requires lo <= hi <= |sel|
  {
    && (forall j | lo <= j < hi :: sel[j].reason == Quota(s) && TakenFor(p, score, eligible, shuffled, sel, s, j))
    && hi - lo <= (if quota > 1 then quota else 1)
    && ((hi > lo && hi - lo >= quota) || NothingFits(p, eligible, sel[..hi], s))
  }

  /** The members from `lo` on fill up the slots, by expected value. */
  ghost predicate FallbackRun(p: Policy, score: Strategy, eligible: seq<Item>, shuffled: seq<Item>, sel: Members,
                              lo: nat, slots: nat)
    requires lo <= |sel|
  {
    && (forall j | lo <= j < |sel| ::
          sel[j].reason == DiversityFallback && TakenFor(p, score, eligible, shuffled, sel, HighestEv, j))
    && (|sel| > lo ==> |sel| <= slots) && (|sel| >= slots || NothingFits(p, eligible, sel, HighestEv))
  }

  /** A selection is made in four stages and a fallback. */
  ghost predicate InStages(p: Policy, score: Strategy, eligible: seq<Item>, shuffled: seq<Item>, q: PerStage<int>,
                           slots: nat, sel: Members)
  {
    exists a: nat, b: nat, c: nat, d: nat :: a <= b <= c <= d <= |sel|
      && StageRun(p, score, eligible, shuffled, sel, 0, a, HighestEv, q.highestEv)
      && StageRun(p, score, eligible, shuffled, sel, a, b, HighImpact, q.highImpact)
      && StageRun(p, score, eligible, shuffled, sel, b, c, Novel, q.novel)
      && StageRun(p, score, eligible, shuffled, sel, c, d, Exploration, q.exploration)
      && FallbackRun(p, score, eligible, shuffled, sel, d, slots)
  }

  /** The list a stage looks through. */
  ghost predicate ListFor(s: Stage, score: Strategy, eligible: seq<Item>, shuffled: seq<Item>, list: seq<Item>) {
    && (forall x :: x in list <==> x in eligible)
    && (s == Exploration ==> list == shuffled)
    && forall c, d | 0 <= c < d < |list| :: !AheadOf(s, score, list[d], list[c])
  }

  lemma ListsRead(score: Strategy, eligible: seq<Item>, shuffled: seq<Item>)
    requires multiset(shuffled) == multiset(eligible)
    ensures var lists := StageLists(score, eligible, shuffled);
            && ListFor(HighestEv, score, eligible, shuffled, lists.highestEv)
            && ListFor(HighImpact, score, eligible, shuffled, lists.highImpact)
            && ListFor(Novel, score, eligible, shuffled, lists.novel)
            && ListFor(Exploration, score, eligible, shuffled, lists.exploration)
  {
    SameMembers(shuffled, eligible);
    SortedRead(ByExpectedValue(score), HighestEv, score, eligible, shuffled);
    SortedRead(ByImpact(), HighImpact, score, eligible, shuffled);
    SortedRead(ByNovelty(), Novel, score, eligible, shuffled);
  }

  lemma SortedRead(leq: (Item, Item) -> bool, s: Stage, score: Strategy, eligible: seq<Item>, shuffled: seq<Item>)
    requires (s == HighestEv && leq == ByExpectedValue(score)) || (s == HighImpact && leq == ByImpact())
             || (s == Novel && leq == ByNovelty())
    ensures ListFor(s, score, eligible, shuffled, Sort(leq, eligible))
  {
    var list := Sort(leq, eligible);
    KeyOrderTotal((i: Item) => (-score(i), 0.0, 0.0));
    KeyOrderTotal((i: Item) => (-(i.proposal.impact * (1.0 - i.Confidence())), -i.proposal.impact, i.Confidence()));
    KeyOrderTotal((i: Item) => (-i.proposal.novelty, 0.0, 0.0));
    SortSorted(leq, eligible);
    SameMembers(list, eligible);
    forall c, d | 0 <= c < d < |list| ensures !AheadOf(s, score, list[d], list[c]) {
      assert leq(list[c], list[d]);
      AheadRead(leq, s, score, list[c], list[d]);
    }
  }

  lemma AheadRead(leq: (Item, Item) -> bool, s: Stage, score: Strategy, x: Item, y: Item)
    requires (s == HighestEv && leq == ByExpectedValue(score)) || (s == HighImpact && leq == ByImpact())
             || (s == Novel && leq == ByNovelty())
    ensures leq(x, y) <==> !AheadOf(s, score, y, x)
  {
  }

  lemma TurnsRead(p: Policy, score: Strategy, eligible: seq<Item>, shuffled: seq<Item>, sel: Members, list: seq<Item>,
                  s: Stage, n: nat)
    requires ListFor(s, score, eligible, shuffled, list) && InTurn(p, sel, list, s, n)
    ensures forall j | n <= j < |sel| :: TakenFor(p, score, eligible, shuffled, sel, s, j)
    ensures NoneLeft(p, sel, list, s) ==> NothingFits(p, eligible, sel, s)
  {
    forall j | n <= j < |sel| ensures TakenFor(p, score, eligible, shuffled, sel, s, j) {
      assert HasTurn(p, sel, list, s, j);
      var c :| TurnAt(p, sel, list, s, j, c);
      TurnRead(p, score, eligible, shuffled, sel, list, s, j, c);
    }
    if NoneLeft(p, sel, list, s) {
      forall x | x in eligible ensures Unfit(p, sel, x, s) {
        var d :| 0 <= d < |list| && list[d] == x;
        UnfitSkips(p, sel, x, s);
      }
    }
  }

  lemma TurnRead(p: Policy, score: Strategy, eligible: seq<Item>, shuffled: seq<Item>, sel: Members, list: seq<Item>,
                 s: Stage, j: int, c: int)
    requires ListFor(s, score, eligible, shuffled, list) && TurnAt(p, sel, list, s, j, c)
    ensures TakenFor(p, score, eligible, shuffled, sel, s, j)
  {
    assert list[c] in list;
    UnfitSkips(p, sel[..j], list[c], s);
    forall d | 0 <= d < c ensures Unfit(p, sel[..j], list[d], s) {
      UnfitSkips(p, sel[..j], list[d], s);
    }
    forall x | x in eligible && AheadOf(s, score, x, sel[j].item) ensures Unfit(p, sel[..j], x, s) {
      var d :| 0 <= d < |list| && list[d] == x;
      assert d != c ==> d < c;
      UnfitSkips(p, sel[..j], x, s);
    }
    if s == Exploration {
      assert FirstShuffled(p, sel, shuffled, j, c);
    }
  }

  lemma StageRead(p: Policy, score: Strategy, eligible: seq<Item>, shuffled: seq<Item>, sel: Members, list: seq<Item>,
                  s: Stage, quota: int)
    requires ListFor(s, score, eligible, shuffled, list)
    ensures var r := Fill(p, sel, list, s, quota, 0);
            && |sel| <= |r| && r[..|sel|] == sel
            && StageRun(p, score, eligible, shuffled, r, |sel|, |r|, s, quota)
  {
    var r := Fill(p, sel, list, s, quota, 0);
    FillInTurn(p, sel, list, s, quota, 0);
    FillContinues(p, sel, list, s, quota, 0);
    TurnsRead(p, score, eligible, shuffled, r, list, s, |sel|);
    assert r[..|r|] == r;
  }

  lemma StageKept(p: Policy, score: Strategy, eligible: seq<Item>, shuffled: seq<Item>, r: Members, sel: Members,
                  lo: nat, hi: nat, s: Stage, quota: int)
    requires lo <= hi <= |r| <= |sel| && sel[..|r|] == r && StageRun(p, score, eligible, shuffled, r, lo, hi, s, quota)
    ensures StageRun(p, score, eligible, shuffled, sel, lo, hi, s, quota)
  {
    assert sel[..hi] == r[..hi];
    forall j | lo <= j < hi ensures sel[j].reason == Quota(s) && TakenFor(p, score, eligible, shuffled, sel, s, j) {
      assert sel[j] == sel[..|r|][j] && sel[..j] == r[..j];
      assert TakenFor(p, score, eligible, shuffled, r, s, j);
      if c :| s == Exploration && FirstShuffled(p, r, shuffled, j, c) {
        assert FirstShuffled(p, sel, shuffled, j, c);
      }
    }
  }

  /** What the selector takes, it takes in stages. */
  lemma SelectedInStages(p: Policy, score: Strategy, eligible: seq<Item>, shuffled: seq<Item>, q: PerStage<int>,
                         slots: nat)
    requires multiset(shuffled) == multiset(eligible)
    ensures InStages(p, score, eligible, shuffled, q, slots,
                     Selected(p, StageLists(score, eligible, shuffled), q, slots))
  {
    var lists := StageLists(score, eligible, shuffled);
    ListsRead(score, eligible, shuffled);
    var a := Fill(p, [], lists.highestEv, HighestEv, q.highestEv, 0);
    var b := Fill(p, a, lists.highImpact, HighImpact, q.highImpact, 0);
    var c := Fill(p, b, lists.novel, Novel, q.novel, 0);
    var d := Fill(p, c, lists.exploration, Exploration, q.exploration, 0);
    var e := Fallback(p, d, lists.highestEv, slots);
    StageRead(p, score, eligible, shuffled, [], lists.highestEv, HighestEv, q.highestEv);
    StageRead(p, score, eligible, shuffled, a, lists.highImpact, HighImpact, q.highImpact);
    StageRead(p, score, eligible, shuffled, b, lists.novel, Novel, q.novel);
    StageRead(p, score, eligible, shuffled, c, lists.exploration, Exploration, q.exploration);
    FallbackInTurn(p, d, lists.highestEv, slots);
    TurnsRead(p, score, eligible, shuffled, e, lists.highestEv, HighestEv, |d|);
    PrefixesOf(a, b, c, d, e);
    StageKept(p, score, eligible, shuffled, a, e, 0, |a|, HighestEv, q.highestEv);
    StageKept(p, score, eligible, shuffled, b, e, |a|, |b|, HighImpact, q.highImpact);
    StageKept(p, score, eligible, shuffled, c, e, |b|, |c|, Novel, q.novel);
    StageKept(p, score, eligible, shuffled, d, e, |c|, |d|, Exploration, q.exploration);
    assert FallbackRun(p, score, eligible, shuffled, e, |d|, slots);
  }

  lemma PrefixesOf(a: Members, b: Members, c: Members, d: Members, e: Members)
    requires |a| <= |b| <= |c| <= |d| <= |e| && b[..|a|] == a && c[..|b|] == b && d[..|c|] == c && e[..|d|] == d
    ensures e[..|a|] == a && e[..|b|] == b && e[..|c|] == c
  {
    assert e[..|c|] == e[..|d|][..|c|] && e[..|b|] == e[..|c|][..|b|] && e[..|a|] == e[..|b|][..|a|];
  }

  // ----- Review -----

  /** What a reviewer sees of a member: its id, its hypothesis and its score. */
  type View = (Id, string, real)

  /** A reviewer answers with an order of ids, or fails (None). */
  type Reviewer = seq<View> -> Option<seq<Id>>

  /** The last position of each known id in the reviewer's answer. */
  function Ranks(order: seq<Id>, known: set<Id>): map<Id, nat> {
    if order == [] then map[]
    else
      var (front, last) := (order[..|order| - 1], order[|order| - 1]);
      if last in known then Ranks(front, known)[last := |order| - 1] else Ranks(front, known)
  }

  function RankOf(ranks: map<Id, nat>, id: Id): nat {
    if id in ranks then ranks[id] else |ranks|
  }

  function ByRank(ranks: map<Id, nat>): (Member, Member) -> bool {
    (a: Member, b: Member) => RankOf(ranks, a.item.proposal.id) <= RankOf(ranks, b.item.proposal.id)
  }

  function Views(score: Strategy, sel: Members): seq<View> {
    seq(|sel|, i requires 0 <= i < |sel| => (sel[i].item.proposal.id, sel[i].item.proposal.hypothesis,
                                             score(sel[i].item)))
  }

  /** The members in the reviewer's order, or as they were when there is no usable answer. */
  function Reviewed(reviewer: Option<Reviewer>, score: Strategy, sel: Members): Members {
    if reviewer.None? || sel == [] then sel
    else
      match reviewer.value(Views(score, sel))
      case None => sel
      case Some(order) => Sort(ByRank(Ranks(order, Ids(sel))), sel)
  }

  /** The last place of an id in an answer. */
  function LastPlace(order: seq<Id>, id: Id): (n: nat)
    requires id in order
    ensures n < |order| && order[n] == id && forall k | n < k < |order| :: order[k] != id
  {
    if order[|order| - 1] == id then |order| - 1 else LastPlace(order[..|order| - 1], id)
  }

  /** How many members the answer names. */
  function NamedIn(order: seq<Id>, known: set<Id>): nat {
    |set id | id in order && id in known|
  }

  lemma {:induction false} RanksRead(order: seq<Id>, known: set<Id>)
    ensures Ranks(order, known).Keys == set id | id in order && id in known
    ensures forall id | id in order && id in known :: Ranks(order, known)[id] == LastPlace(order, id)
  {
    if order != [] {
      var n := |order| - 1;
      RanksRead(order[..n], known);
      assert order == order[..n] + [order[n]];
      forall id | id in order && id in known ensures Ranks(order, known)[id] == LastPlace(order, id) {
        if id != order[n] {
          assert id in order[..n];
        }
      }
    }
  }

  /** Where a member goes: at its last place in the answer, or, if it is not named, after as many places as members are
      named. */
  function PlaceOf(order: seq<Id>, known: set<Id>, m: Member): nat {
    if m.item.proposal.id in order && m.item.proposal.id in known then LastPlace(order, m.item.proposal.id)
    else NamedIn(order, known)
  }

  lemma PlaceRead(order: seq<Id>, known: set<Id>, m: Member)
    ensures RankOf(Ranks(order, known), m.item.proposal.id) == PlaceOf(order, known, m)
  {
    RanksRead(order, known);
  }

  lemma PlacesRead(order: seq<Id>, known: set<Id>)
    ensures forall a, b: Member ::
              ByRank(Ranks(order, known))(a, b) <==> PlaceOf(order, known, a) <= PlaceOf(order, known, b)
  {
    forall a, b: Member
      ensures ByRank(Ranks(order, known))(a, b) <==> PlaceOf(order, known, a) <= PlaceOf(order, known, b)
    {
      PlaceRead(order, known, a);
      PlaceRead(order, known, b);
    }
  }

  /** A reviewer is shown each member's id, hypothesis and score, in the order selected, and nothing else. */
  ghost predicate Shown(score: Strategy, sel: Members, shown: seq<View>) {
    && |shown| == |sel|
    && forall k | 0 <= k < |sel| ::
         shown[k] == (sel[k].item.proposal.id, sel[k].item.proposal.hypothesis, score(sel[k].item))
  }

  /** A reviewer that answers has the members sorted by their places in its answer; members with one place stay in the
      order in which they were chosen. */
  lemma ReviewSorts(reviewer: Reviewer, score: Strategy, sel: Members, shown: seq<View>, order: seq<Id>, place: nat)
    requires sel != [] && Shown(score, sel, shown) && reviewer(shown) == Some(order)
    ensures var r, known := Reviewed(Some(reviewer), score, sel), Ids(sel);
            && (forall i, j | 0 <= i < j < |r| :: PlaceOf(order, known, r[i]) <= PlaceOf(order, known, r[j]))
            && Filter((m: Member) => PlaceOf(order, known, m) == place, r)
               == Filter((m: Member) => PlaceOf(order, known, m) == place, sel)
  {
    assert shown == Views(score, sel);
    PlacesRead(order, Ids(sel));
    SortsByPlace(ByRank(Ranks(order, Ids(sel))), order, Ids(sel), sel, place);
  }

  /** A reviewer that fails leaves the members as they were. */
  lemma FailureKeeps(reviewer: Reviewer, score: Strategy, sel: Members, shown: seq<View>)
    requires Shown(score, sel, shown) && reviewer(shown).None?
    ensures Reviewed(Some(reviewer), score, sel) == sel
  {
    assert shown == Views(score, sel);
  }

  lemma SortsByPlace(leq: (Member, Member) -> bool, order: seq<Id>, known: set<Id>, sel: Members, place: nat)
    requires forall a, b :: leq(a, b) <==> PlaceOf(order, known, a) <= PlaceOf(order, known, b)
    ensures var r := Sort(leq, sel);
            && (forall i, j | 0 <= i < j < |r| :: PlaceOf(order, known, r[i]) <= PlaceOf(order, known, r[j]))
            && Filter((m: Member) => PlaceOf(order, known, m) == place, r)
               == Filter((m: Member) => PlaceOf(order, known, m) == place, sel)
  {
    SortSorted(leq, sel);
    SortStable(leq, (m: Member) => PlaceOf(order, known, m) == place, sel);
  }

  function Without(b: Members, k: nat): (r: Members)
    requires k < |b|
    ensures |r| == |b| - 1
  {
    b[..k] + b[k + 1..]
  }

  lemma {:induction false} CountsPermute(a: Members, b: Members, asset: string, category: string, program: string)
    requires multiset(a) == multiset(b)
    ensures PairCount(a, asset, category) == PairCount(b, asset, category)
    ensures ProgramCount(a, program) == ProgramCount(b, program)
    decreases |a|
  {
    if a == [] {
      assert |multiset(b)| == 0;
    } else {
      assert a[0] in multiset(b);
      var k :| 0 <= k < |b| && b[k] == a[0];
      MultisetWithout(a, 0);
      MultisetWithout(b, k);
      CountsPermute(Without(a, 0), Without(b, k), asset, category, program);
      CountsWithout(a, 0, asset, category, program);
      CountsWithout(b, k, asset, category, program);
    }
  }

  lemma MultisetWithout(b: Members, k: nat)
    requires k < |b|
    ensures multiset(Without(b, k)) == multiset(b) - multiset{b[k]}
  {
    assert b == b[..k] + [b[k]] + b[k + 1..];
  }

  lemma CountsWithout(b: Members, k: nat, asset: string, category: string, program: string)
    requires k < |b|
    ensures PairCount(b, asset, category) == PairCount(Without(b, k), asset, category)
            + PairCount([b[k]], asset, category)
    ensures ProgramCount(b, program) == ProgramCount(Without(b, k), program) + ProgramCount([b[k]], program)
  {
    assert b == b[..k] + ([b[k]] + b[k + 1..]);
    CountsSplit(b[..k], [b[k]] + b[k + 1..], asset, category, program);
    CountsSplit([b[k]], b[k + 1..], asset, category, program);
    CountsSplit(b[..k], b[k + 1..], asset, category, program);
  }

  lemma {:induction false} CountsSplit(a: Members, b: Members, asset: string, category: string, program: string)
    ensures PairCount(a + b, asset, category) == PairCount(a, asset, category) + PairCount(b, asset, category)
    ensures ProgramCount(a + b, program) == ProgramCount(a, program) + ProgramCount(b, program)
  {
    if b == [] {
      assert a + b == a;
    } else {
      assert (a + b)[..|a + b| - 1] == a + b[..|b| - 1];
      CountsSplit(a, b[..|b| - 1], asset, category, program);
    }
  }

  /** No reviewer can add or drop a member, or break a cap, whatever it answers. */
  lemma ReviewOnlyReorders(p: Policy, reviewer: Option<Reviewer>, score: Strategy, sel: Members)
    requires Capped(p, sel)
    ensures multiset(Reviewed(reviewer, score, sel)) == multiset(sel)
    ensures Capped(p, Reviewed(reviewer, score, sel))
  {
    var r := Reviewed(reviewer, score, sel);
    forall asset, category ensures PairCount(r, asset, category) <= p.maxPerAssetCategory {
      CountsPermute(r, sel, asset, category, "");
    }
    forall program | p.perProgramCap.Some? ensures ProgramCount(r, program) <= p.perProgramCap.value {
      CountsPermute(r, sel, "", "", program);
    }
    IdsPermute(r, sel);
  }

  lemma IdsPermute(r: Members, sel: Members)
    requires multiset(r) == multiset(sel)
    requires forall i, j :: 0 <= i < j < |sel| ==> sel[i].item.proposal.id != sel[j].item.proposal.id
    ensures forall i, j :: 0 <= i < j < |r| ==> r[i].item.proposal.id != r[j].item.proposal.id
  {
    SameMembers(r, sel);
    assert Distinct(sel);
    forall i, j | 0 <= i < j < |r| ensures r[i].item.proposal.id != r[j].item.proposal.id {
      assert r[i] in r && r[j] in r;
      var k :| 0 <= k < |sel| && sel[k] == r[i];
      var l :| 0 <= l < |sel| && sel[l] == r[j];
    }
  }

  // ----- The selector as it runs -----

  function Get<K>(m: map<K, int>, k: K): int {
    if k in m then m[k] else 0
  }

  lemma CategoriesGrow(sel: Members, m: Member)
    ensures Categories(sel + [m]) == Categories(sel) + {m.item.proposal.category}
  {
    var grown := sel + [m];
    assert grown[|sel|] == m;
    forall c | c in Categories(sel) ensures c in Categories(grown) {
      var k :| k in sel && k.item.proposal.category == c;
      assert k in grown;
    }
  }

  /** The four indexes say of `sel` what counting its members would. */
  ghost predicate Indexes(sel: Members, chosen: set<Id>, diversity: map<(string, string), int>,
                          programs: map<string, int>, categories: set<string>) {
    && chosen == Ids(sel)
    && categories == Categories(sel)
    && (forall a, c :: Get(diversity, (a, c)) == PairCount(sel, a, c))
    && (forall program :: Get(programs, program) == ProgramCount(sel, program))
  }

  function Counted<K>(m: map<K, int>, k: K): map<K, int> {
    m[k := Get(m, k) + 1]
  }

  /** `add`'s own test, on the indexes. */
  predicate Admits(p: Policy, chosen: set<Id>, diversity: map<(string, string), int>, programs: map<string, int>,
                   i: Item) {
    && i.proposal.id !in chosen
    && Get(diversity, (i.proposal.asset, i.proposal.category)) < p.maxPerAssetCategory
    && !(p.perProgramCap.Some? && Get(programs, i.proposal.program) >= p.perProgramCap.value)
  }

  lemma AdmitsExactly(p: Policy, sel: Members, chosen: set<Id>, diversity: map<(string, string), int>,
                      programs: map<string, int>, categories: set<string>, i: Item)
    requires Indexes(sel, chosen, diversity, programs, categories)
    ensures Admits(p, chosen, diversity, programs, i) == CanAdd(p, sel, i)
  {
    assert Get(diversity, (i.proposal.asset, i.proposal.category))
           == PairCount(sel, i.proposal.asset, i.proposal.category);
    assert Get(programs, i.proposal.program) == ProgramCount(sel, i.proposal.program);
  }

  lemma PairsGrow(sel: Members, diversity: map<(string, string), int>, m: Member)
    requires forall a, c :: Get(diversity, (a, c)) == PairCount(sel, a, c)
    ensures var p := m.item.proposal;
            forall a, c :: Get(Counted(diversity, (p.asset, p.category)), (a, c)) == PairCount(sel + [m], a, c)
  {
    var p, grown := m.item.proposal, sel + [m];
    assert grown[..|grown| - 1] == sel;
    forall a, c ensures Get(Counted(diversity, (p.asset, p.category)), (a, c)) == PairCount(grown, a, c) {
      assert Get(diversity, (a, c)) == PairCount(sel, a, c);
    }
  }

  lemma ProgramsGrow(sel: Members, programs: map<string, int>, m: Member)
    requires forall program :: Get(programs, program) == ProgramCount(sel, program)
    ensures forall program ::
              Get(Counted(programs, m.item.proposal.program), program) == ProgramCount(sel + [m], program)
  {
    var p, grown := m.item.proposal, sel + [m];
    assert grown[..|grown| - 1] == sel;
    forall program ensures Get(Counted(programs, p.program), program) == ProgramCount(grown, program) {
      assert Get(programs, program) == ProgramCount(sel, program);
    }
  }

  lemma IndexesGrow(sel: Members, chosen: set<Id>, diversity: map<(string, string), int>, programs: map<string, int>,
                    categories: set<string>, m: Member)
    requires Indexes(sel, chosen, diversity, programs, categories)
    ensures var p := m.item.proposal;
            Indexes(sel + [m], chosen + {p.id}, Counted(diversity, (p.asset, p.category)),
                    Counted(programs, p.program), categories + {p.category})
  {
    IdsGrow(sel, m);
    CategoriesGrow(sel, m);
    PairsGrow(sel, diversity, m);
    ProgramsGrow(sel, programs, m);
  }

  /** The selection under construction: `select`'s list and the four indexes `add` keeps beside it. */
  class Draft {
    const policy: Policy
    var selected: Members
    var chosen: set<Id>
    var diversity: map<(string, string), int>
    var programs: map<string, int>
    var categories: set<string>

    ghost predicate Valid()
      reads this
    {
      Indexes(selected, chosen, diversity, programs, categories)
    }

    constructor (policy: Policy)
      ensures Valid() && this.policy == policy && selected == []
    {
      this.policy := policy;
      selected, chosen, diversity, programs, categories := [], {}, map[], map[], {};
    }

    method Add(item: Item, reason: Reason) returns (added: bool)
      requires Valid()
      modifies this`selected, this`chosen, this`diversity, this`programs, this`categories
      ensures Valid()
      ensures added == CanAdd(policy, old(selected), item)
      ensures selected == if added then old(selected) + [Member(item, reason)] else old(selected)
    {
      added := Admits(policy, chosen, diversity, programs, item);
      AdmitsExactly(policy, selected, chosen, diversity, programs, categories, item);
      if added {
        IndexesGrow(selected, chosen, diversity, programs, categories, Member(item, reason));
        var p := item.proposal;
        chosen, diversity, programs, categories, selected :=
          chosen + {p.id}, Counted(diversity, (p.asset, p.category)), Counted(programs, p.program),
          categories + {p.category}, selected + [Member(item, reason)];
      }
    }

    method RunStage(list: seq<Item>, stage: Stage, quota: int)
      requires Valid()
      modifies this`selected, this`chosen, this`diversity, this`programs, this`categories
      ensures Valid()
      ensures selected == Fill(policy, old(selected), list, stage, quota, 0)
    {
      var filled := 0;
      for n := 0 to |list|
        invariant Valid()
        invariant Fill(policy, selected, list[n..], stage, quota, filled)
                  == Fill(policy, old(selected), list, stage, quota, 0)
      {
        var item := list[n];
        assert list[n..][0] == item && list[n..][1..] == list[n + 1..];
        if stage.Novel? && item.proposal.category in categories {
          continue;
        }
        var added := Add(item, Quota(stage));
        if added {
          filled := filled + 1;
          if filled >= quota {
            return;
          }
        }
      }
    }

    method RunFallback(list: seq<Item>, slots: nat)
      requires Valid()
      modifies this`selected, this`chosen, this`diversity, this`programs, this`categories
      ensures Valid()
      ensures selected == Fallback(policy, old(selected), list, slots)
    {
      for n := 0 to |list|
        invariant Valid()
        invariant Fallback(policy, selected, list[n..], slots) == Fallback(policy, old(selected), list, slots)
      {
        assert list[n..][0] == list[n] && list[n..][1..] == list[n + 1..];
        if |selected| >= slots {
          return;
        }
        var _ := Add(list[n], DiversityFallback);
      }
    }
  }

  datatype Selection = Selection(proposalCount: nat, eligibleCount: nat, members: Members, quotas: PerStage<int>,
                                 modelCalls: nat, modelFailures: nat)

  datatype SelectError = InvalidSlots

  datatype Selecting = Made(selection: Selection) | Refused(error: SelectError)

  /** Everything a selection of `members` promises about the items it was made from. */
  ghost predicate SoundSelection(p: Policy, members: Members, eligible: seq<Item>, slots: nat) {
    && Capped(p, members)
    && (forall m | m in members :: m.item in eligible)
    && (|members| >= slots || forall i | i in eligible :: Settled(p, members, i))
  }

  lemma ChosenSound(p: Policy, score: Strategy, items: seq<Item>, shuffled: seq<Item>, slots: nat,
                    reviewer: Option<Reviewer>)
    requires p.Valid() && slots <= 1000 && multiset(shuffled) == multiset(EligibleItems(items))
    ensures var r := Reviewed(reviewer, score, Chosen(p, score, items, shuffled, slots));
            && multiset(r) == multiset(Chosen(p, score, items, shuffled, slots))
            && SoundSelection(p, r, EligibleItems(items), slots)
  {
    var eligible := EligibleItems(items);
    var sel := Chosen(p, score, items, shuffled, slots);
    SelectedSound(p, StageLists(score, eligible, shuffled), eligible, Quotas(p, if |eligible| < slots then |eligible|
                                                                             else slots), slots);
    ReviewOnlyReorders(p, reviewer, score, sel);
    SoundPermutes(p, sel, Reviewed(reviewer, score, sel), eligible, slots);
  }

  lemma SoundPermutes(p: Policy, sel: Members, r: Members, eligible: seq<Item>, slots: nat)
    requires SoundSelection(p, sel, eligible, slots) && multiset(r) == multiset(sel) && Capped(p, r)
    ensures SoundSelection(p, r, eligible, slots)
  {
    SameMembers(r, sel);
    forall i | i in eligible && Settled(p, sel, i) ensures Settled(p, r, i) {
      CountsPermute(r, sel, i.proposal.asset, i.proposal.category, i.proposal.program);
      assert Ids(r) == Ids(sel);
    }
  }

  /** The four quota stages and the fallback, on one draft. */
  method Draw(p: Policy, lists: Orders, quotas: PerStage<int>, slots: nat) returns (members: Members)
    ensures members == Selected(p, lists, quotas, slots)
  {
    var draft := new Draft(p);
    draft.RunStage(lists.highestEv, HighestEv, quotas.highestEv);
    draft.RunStage(lists.highImpact, HighImpact, quotas.highImpact);
    draft.RunStage(lists.novel, Novel, quotas.novel);
    draft.RunStage(lists.exploration, Exploration, quotas.exploration);
    draft.RunFallback(lists.highestEv, slots);
    members := draft.selected;
  }

  /** `select`: capped and maximal over the eligible items, in whatever order the reviewer gave. */
  method Select(p: Policy, score: Strategy, reviewer: Option<Reviewer>, items: seq<Item>, shuffled: seq<Item>,
                slots: int)
    returns (r: Selecting)
    requires p.Valid()
    requires multiset(shuffled) == multiset(EligibleItems(items))
    ensures r.Refused? <==> !(1 <= slots <= 1000)
    ensures r.Made? ==> r.selection.members == Reviewed(reviewer, score, Chosen(p, score, items, shuffled, slots))
    ensures r.Made? ==> multiset(r.selection.members) == multiset(Chosen(p, score, items, shuffled, slots))
    ensures r.Made? ==> SoundSelection(p, r.selection.members, EligibleItems(items), slots)
    ensures r.Made? ==> r.selection.modelFailures <= r.selection.modelCalls <= 1
    ensures r.Made? ==>
              InStages(p, score, EligibleItems(items), shuffled, r.selection.quotas, slots,
                       Chosen(p, score, items, shuffled, slots))
    ensures r.Made? ==> r.selection.quotas == Quotas(p, if |EligibleItems(items)| < slots then |EligibleItems(items)|
                                                        else slots)
    ensures r.Made? ==> r.selection.proposalCount == |items| && r.selection.eligibleCount == |EligibleItems(items)|
  {
    if !(1 <= slots <= 1000) {
      return Refused(InvalidSlots);
    }
    var eligible := EligibleItems(items);
    ChosenSound(p, score, items, shuffled, slots, reviewer);
    var quotas := ComputeQuotas(p, if |eligible| < slots then |eligible| else slots);
    var members := Draw(p, StageLists(score, eligible, shuffled), quotas, slots);
    SelectedInStages(p, score, eligible, shuffled, quotas, slots);
    r := Finish(score, reviewer, |items|, |eligible|, quotas, members);
  }

  method Finish(score: Strategy, reviewer: Option<Reviewer>, proposals: nat, eligible: nat, quotas: PerStage<int>,
                members: Members)
    returns (r: Selecting)
    ensures r.Made? && r.selection.members == Reviewed(reviewer, score, members) && r.selection.quotas == quotas
    ensures r.selection.proposalCount == proposals && r.selection.eligibleCount == eligible
    ensures r.selection.modelFailures <= r.selection.modelCalls <= 1
    ensures r.selection.modelCalls == 1 <==> reviewer.Some? && members != []
    ensures r.selection.modelFailures == 1 ==> r.selection.members == members
  {
    if reviewer.None? || members == [] {
      return Made(Selection(proposals, eligible, members, quotas, 0, 0));
    }
    var answer := reviewer.value(Views(score, members));
    if answer.None? {
      return Made(Selection(proposals, eligible, members, quotas, 1, 1));
    }
    var ordered := Sort(ByRank(Ranks(answer.value, Ids(members))), members);
    r := Made(Selection(proposals, eligible, ordered, quotas, 1, 0));
  }
}
