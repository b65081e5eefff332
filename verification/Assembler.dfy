/** The context assembler: budget split, truncation, greedy blocks and the true cost of joining. */
module Assembler {
  import opened Basics
  import opened Whitespace
  import opened Messages
  import opened StableSort
  import opened GoalForest

  /** `provenance` is the retrieval source, or the source type without one. */
  datatype WorkingSetItem = WorkingSetItem(
    id: string, provenance: string, text: string, category: string, score: real,
    systemPromptEligible: bool, evidenceRefIds: seq<string>)

  /** The assembler's estimate, without the engine's minimum of one. */
  function Estimate(text: string): nat { |text| / 4 }

  // ----- budgets -----

  /** `int(n / d)`: truncation towards zero. */
  function Truncated(n: int, d: nat): int
    requires d > 0
  {
    if n >= 0 then n / d else -(-n / d)
  }

  function Min(a: int, b: int): int { if a <= b then a else b }

  datatype Budgets = Budgets(block1: int, block2: int, block3: int, block4: int)

  function SplitBudget(effective: int, overlayMax: nat, evidenceMax: nat): Budgets {
    var b1 := Min(Truncated(effective, 5), overlayMax);
    var b2 := Truncated(effective, 10);
    var b4 := Min(Truncated(effective, 20), evidenceMax);
    Budgets(b1, b2, effective - b1 - b2 - b4, b4)
  }

  /** The four parts always add up, and none is negative exactly when the budget is not. */
  lemma BudgetsAddUp(effective: int, overlayMax: nat, evidenceMax: nat)
    ensures var b := SplitBudget(effective, overlayMax, evidenceMax);
            && b.block1 + b.block2 + b.block3 + b.block4 == effective
            && (b.block1 >= 0 && b.block2 >= 0 && b.block3 >= 0 && b.block4 >= 0 <==> effective >= 0)
  {
  }

  datatype Source = Source(tokens: int, name: string)

  /** The limits that apply to one assembly. `window` is the reported context window, 0 or None when
      unknown; the fraction is `num / den`. */
  function BudgetSources(profileMax: nat, openclaw: Option<int>, window: Option<int>, num: nat, den: nat,
                         dynamic: bool, fallbackWindow: nat): seq<Source>
    requires den > 0
  {
    [Source(profileMax, "profile")]
    + (if openclaw.Some? && openclaw.value > 0 then [Source(openclaw.value, "openclaw")] else [])
    + (if window.Some? && window.value != 0 then [Source(Truncated(window.value * num, den), "window")]
       else if dynamic then [Source(Truncated(fallbackWindow * num, den), "window")] else [])
  }

  /** `min(sources, key=...)`: the first smallest. */
  function Smallest(sources: seq<Source>): Source
    requires sources != []
  {
    if |sources| == 1 then sources[0]
    else var s := Smallest(sources[1..]); if sources[0].tokens <= s.tokens then sources[0] else s
  }

  lemma {:induction false} SmallestCorrect(sources: seq<Source>)
    requires sources != []
    ensures Smallest(sources) in sources && forall s :: s in sources ==> Smallest(sources).tokens <= s.tokens
  {
    if |sources| > 1 {
      SmallestCorrect(sources[1..]);
      assert sources == [sources[0]] + sources[1..];
    }
  }

  /** The effective budget respects every limit that is present, and can be negative only through a
      negative window report. */
  lemma EffectiveBudget(profileMax: nat, openclaw: Option<int>, window: Option<int>, num: nat, den: nat,
                        dynamic: bool, fallbackWindow: nat)
    requires den > 0
    ensures var sources := BudgetSources(profileMax, openclaw, window, num, den, dynamic, fallbackWindow);
            var budget := Smallest(sources).tokens;
            && budget <= profileMax
            && (openclaw.Some? && openclaw.value > 0 ==> budget <= openclaw.value)
            && (window.Some? && window.value > 0 ==> budget * den <= window.value * num)
            && (!(window.Some? && window.value < 0) ==> budget >= 0)
  {
    var sources := BudgetSources(profileMax, openclaw, window, num, den, dynamic, fallbackWindow);
    SmallestCorrect(sources);
    SourceMembers(profileMax, openclaw, window, num, den, dynamic, fallbackWindow);
    if window.Some? && window.value > 0 {
      DivTimes(Smallest(sources).tokens, window.value * num, den);
    }
  }

  lemma SourceMembers(profileMax: nat, openclaw: Option<int>, window: Option<int>, num: nat, den: nat,
                      dynamic: bool, fallbackWindow: nat)
    requires den > 0
    ensures var sources := BudgetSources(profileMax, openclaw, window, num, den, dynamic, fallbackWindow);
            && Source(profileMax, "profile") in sources
            && (openclaw.Some? && openclaw.value > 0 ==> Source(openclaw.value, "openclaw") in sources)
            && (window.Some? && window.value > 0 ==>
                window.value * num >= 0 && Source(window.value * num / den, "window") in sources)
            && (!(window.Some? && window.value < 0) ==> forall s :: s in sources ==> s.tokens >= 0)
  {
    if window.Some? && window.value >= 0 { Products(window.value, num); }
    Products(fallbackWindow, num);
  }

  lemma Products(a: nat, b: nat)
    ensures a * b >= 0
  {
  }

  lemma DivTimes(b: int, n: nat, d: nat)
    requires d > 0 && b <= n / d
    ensures b * d <= n
  {
    assert b * d <= n / d * d;
  }

  // ----- truncation -----

  /** `text[:k]`, where a negative `k` counts from the end. */
  function Upto(text: string, k: int): string {
    if k >= |text| then text else if k >= 0 then text[..k] else if -k <= |text| then text[..|text| + k] else ""
  }

  /** `text.rfind(c)`. */
  function LastIndex(text: string, c: char): (r: int)
    ensures -1 <= r < |text|
    ensures r >= 0 ==> text[r] == c
  {
    if text == "" then -1 else if text[|text| - 1] == c then |text| - 1 else LastIndex(text[..|text| - 1], c)
  }

  function TruncateToBudget(text: string, budget: int): string {
    if |text| <= budget * 4 then text
    else
      var cut := budget * 4 - 3;
      var head := Upto(text, cut);
      var newline, blank := LastIndex(head, '\n'), LastIndex(head, ' ');
      if newline > cut / 2 then Upto(head, newline) + "..."
      else if blank > cut / 2 then Upto(head, blank) + "..."
      else head + "..."
  }

  lemma PositiveBudgetHolds(text: string, budget: int)
    requires budget >= 1
    ensures Estimate(TruncateToBudget(text, budget)) <= budget
    ensures |text| <= 4 * budget ==> TruncateToBudget(text, budget) == text
    ensures TruncateToBudget(text, budget) == text
            || exists k :: 0 <= k <= 4 * budget - 3 && k <= |text| && TruncateToBudget(text, budget) == text[..k] + "..."
  {
    if |text| > budget * 4 {
      var cut := budget * 4 - 3;
      var head := Upto(text, cut);
      var newline, blank := LastIndex(head, '\n'), LastIndex(head, ' ');
      var k := if newline > cut / 2 then newline else if blank > cut / 2 then blank else cut;
      assert head == text[..cut];
      assert k < cut ==> Upto(head, k) == text[..k];
      assert TruncateToBudget(text, budget) == text[..k] + "...";
    }
  }

  /** The cap holds for every text exactly when the budget is at least 1: with budget 0 the cut position
      is negative and counts from the end, and below 0 even the empty text grows dots. */
  lemma TruncationBound(budget: int)
    ensures (forall text: string :: Estimate(TruncateToBudget(text, budget)) <= budget) <==> budget >= 1
  {
    if budget >= 1 {
      forall text: string ensures Estimate(TruncateToBudget(text, budget)) <= budget {
        PositiveBudgetHolds(text, budget);
      }
    } else if budget < 0 {
      assert Estimate(TruncateToBudget("", budget)) > budget;
    } else {
      ZeroBudgetOverflows();
    }
  }

  lemma ZeroBudgetOverflows()
    ensures Estimate(TruncateToBudget("aaaaa", 0)) == 1
  {
    var head := Upto("aaaaa", -3);
    assert head == "aa";
    assert LastIndex("aa", '\n') == -1 by {
      assert "aa"[..1] == "a" && "a"[..0] == "";
      assert LastIndex("", '\n') == -1 && LastIndex("a", '\n') == -1;
    }
    assert -3 / 2 == -2;
    assert Upto("aa", -1) == "a";
  }

  // ----- greedy fitting -----

  /** `n` items were taken: each fitted on top of `used`, and the next one would not. */
  ghost predicate IsFit(costs: seq<nat>, used: nat, budget: int, n: nat) {
    && n <= |costs|
    && (n > 0 ==> used + Sum(costs[..n]) <= budget)
    && (n < |costs| ==> used + Sum(costs[..n + 1]) > budget)
  }

  lemma {:induction false} SumMonotone(costs: seq<nat>, m: nat, n: nat)
    requires m <= n <= |costs|
    ensures Sum(costs[..m]) <= Sum(costs[..n])
  {
    if m < n {
      SumMonotone(costs, m, n - 1);
      SumStep(costs, n - 1);
    }
  }

  /** A greedy fit is the longest prefix within the budget. */
  lemma FitIsLongest(costs: seq<nat>, used: nat, budget: int, n: nat, m: nat)
    requires IsFit(costs, used, budget, n) && m <= |costs| && used + Sum(costs[..m]) <= budget
    ensures m <= n
  {
    if m > n { SumMonotone(costs, n + 1, m); }
  }

  function Costs(parts: seq<string>): seq<nat> {
    seq(|parts|, i requires 0 <= i < |parts| => Estimate(parts[i]))
  }

  /** The greedy loop: takes parts in order until one does not fit. */
  method TakeFitting(parts: seq<string>, used: nat, budget: int) returns (taken: seq<string>, total: nat)
    ensures |taken| <= |parts| && taken == parts[..|taken|] && IsFit(Costs(parts), used, budget, |taken|)
    ensures total == used + Sum(Costs(taken))
  {
    taken, total := [], used;
    for i := 0 to |parts|
      invariant taken == parts[..i] && total == used + Sum(Costs(parts)[..i])
      invariant i > 0 ==> total <= budget
    {
      SumStep(Costs(parts), i);
      if total + Estimate(parts[i]) > budget {
        assert Costs(taken) == Costs(parts)[..i];
        return;
      }
      taken := taken + [parts[i]];
      total := total + Estimate(parts[i]);
    }
    assert Costs(taken) == Costs(parts)[..|parts|];
  }

  lemma {:induction false} LengthsBound(parts: seq<string>)
    ensures 4 * Sum(Costs(parts)) <= Sum(Lengths(parts)) <= 4 * Sum(Costs(parts)) + 3 * |parts|
    ensures (forall p :: p in parts ==> |p| % 4 == 3) ==> Sum(Lengths(parts)) == 4 * Sum(Costs(parts)) + 3 * |parts|
  {
    if parts != [] {
      LengthsBound(parts[1..]);
      assert Lengths(parts)[1..] == Lengths(parts[1..]) && Costs(parts)[1..] == Costs(parts[1..]);
      assert parts == [parts[0]] + parts[1..];
    }
  }

  /** What joining costs beyond the parts: up to 3 characters rounded away in each part, plus the
      separators. The bound is reached whenever every part rounds away 3. */
  lemma JoinCost(parts: seq<string>, sep: string)
    requires parts != []
    ensures var k := |parts|;
            && Estimate(Join(parts, sep)) <= Sum(Costs(parts)) + (3 * k + |sep| * (k - 1)) / 4
            && ((forall p :: p in parts ==> |p| % 4 == 3) ==>
                Estimate(Join(parts, sep)) == Sum(Costs(parts)) + (3 * k + |sep| * (k - 1)) / 4)
  {
    JoinLength(parts, sep);
    LengthsBound(parts);
    var gaps := |sep| * (|parts| - 1);
    assert |Join(parts, sep)| == Sum(Lengths(parts)) + gaps;
    assert |Join(parts, sep)| <= 4 * Sum(Costs(parts)) + (3 * |parts| + gaps);
  }

  // ----- block 3 -----

  function ClassPriority(category: string): nat {
    if category == "policy" then 0 else if category == "procedural" then 1 else if category == "semantic" then 2
    else if category == "episodic" then 3 else if category == "working_memory" then 4 else 99
  }

  function Before(a: WorkingSetItem, b: WorkingSetItem): bool {
    ClassPriority(a.category) < ClassPriority(b.category)
    || (ClassPriority(a.category) == ClassPriority(b.category) && a.score >= b.score)
  }

  function OrderByClassThenScore(items: seq<WorkingSetItem>): seq<WorkingSetItem> { Sort(items, Before) }

  /** Class first, then falling score, ties in snapshot order. */
  lemma OrderCorrect(items: seq<WorkingSetItem>)
    ensures Ordered(OrderByClassThenScore(items), Before)
    ensures multiset(OrderByClassThenScore(items)) == multiset(items)
    ensures forall e :: Ties(OrderByClassThenScore(items), e, Before) == Ties(items, e, Before)
  {
    SortCorrect(items, Before);
  }

  function Spaced(text: string): string {
    seq(|text|, i requires 0 <= i < |text| => if text[i] == '\n' then ' ' else text[i])
  }

  /** A large item becomes a placeholder. */
  function RenderItem(item: WorkingSetItem): string {
    if |item.text| > 400 then
      "[Memory (" + item.provenance + "): " + Strip(Spaced(item.text[..120])) + "...]\n"
      + " -> Call artifact_search(\"" + item.id + "\") for full content"
    else "[" + item.provenance + "] " + item.text
  }

  function RenderAll(items: seq<WorkingSetItem>): seq<string> {
    seq(|items|, i requires 0 <= i < |items| => RenderItem(items[i]))
  }

  function Eligible(items: seq<WorkingSetItem>, yes: bool): seq<WorkingSetItem> {
    Keep(items, (it: WorkingSetItem) => it.systemPromptEligible == yes)
  }

  function Bullets(texts: seq<string>): seq<string> {
    seq(|texts|, i requires 0 <= i < |texts| => "- " + texts[i])
  }

  function Texts(items: seq<WorkingSetItem>): seq<string> {
    seq(|items|, i requires 0 <= i < |items| => items[i].text)
  }

  /** Constraint bullets, then the guard rules under a heading, separated by an empty line. */
  function Block1Parts(items: seq<WorkingSetItem>, guards: seq<string>): seq<string> {
    var constraints := Bullets(Texts(Eligible(items, true)));
    if guards == [] then constraints
    else constraints + (if constraints == [] then [] else [""]) + ["## Guard Rules"] + Bullets(guards)
  }

  datatype Assembly = Assembly(block1: string, block3: seq<string>, block3Text: string, estimatedTokens: nat)

  /** What an assembly must satisfy: block 1 is the truncated constraint text and stays in its budget when
      that is positive; block 3 is the longest prefix of the ordered rest that fits, and its joined text
      exceeds its budget by at most (5k - 2) / 4 tokens for k items. */
  ghost predicate AssemblyOk(a: Assembly, items: seq<WorkingSetItem>, guards: seq<string>, b: Budgets) {
    var rendered := RenderAll(OrderByClassThenScore(Eligible(items, false)));
    && a.block1 == TruncateToBudget(Join(Block1Parts(items, guards), "\n"), b.block1)
    && (b.block1 >= 1 ==> Estimate(a.block1) <= b.block1)
    && |a.block3| <= |rendered| && a.block3 == rendered[..|a.block3|]
    && IsFit(Costs(rendered), 0, b.block3, |a.block3|)
    && a.block3Text == Join(a.block3, "\n\n")
    && (a.block3 != [] ==> Estimate(a.block3Text) <= b.block3 + (5 * |a.block3| - 2) / 4)
    && a.estimatedTokens == Estimate(a.block1) + Estimate(a.block3Text)
  }

  method AssembleFromSnapshot(items: seq<WorkingSetItem>, effectiveBudget: int, overlayMax: nat, evidenceMax: nat,
                              guards: seq<string>) returns (a: Assembly)
    ensures AssemblyOk(a, items, guards, SplitBudget(effectiveBudget, overlayMax, evidenceMax))
  {
    var b := SplitBudget(effectiveBudget, overlayMax, evidenceMax);
    var block1 := TruncateToBudget(Join(Block1Parts(items, guards), "\n"), b.block1);
    if b.block1 >= 1 { PositiveBudgetHolds(Join(Block1Parts(items, guards), "\n"), b.block1); }
    var rendered := RenderAll(OrderByClassThenScore(Eligible(items, false)));
    var block3, total := TakeFitting(rendered, 0, b.block3);
    var block3Text := Join(block3, "\n\n");
    if |block3| > 0 {
      JoinCost(block3, "\n\n");
      FitSum(rendered, block3, 0, b.block3);
      assert 3 * |block3| + 2 * (|block3| - 1) == 5 * |block3| - 2;
    }
    a := Assembly(block1, block3, block3Text, Estimate(block1) + Estimate(block3Text));
  }

  lemma FitSum(parts: seq<string>, taken: seq<string>, used: nat, budget: int)
    requires |taken| <= |parts| && taken == parts[..|taken|] && taken != []
    requires IsFit(Costs(parts), used, budget, |taken|)
    ensures used + Sum(Costs(taken)) <= budget
  {
    assert Costs(taken) == Costs(parts)[..|taken|];
  }

  // ----- blocks 2 and 4 -----

  const GOAL_HEADER := "## Active Goals"

  function GoalLine(g: GoalState): string {
    "- **" + g.title + "**"
    + (if g.description != "" then ": " + g.description else "")
    + (if g.status != "" then " [" + g.status + "]" else "")
    + (if g.blockers != [] then "\n  BLOCKERS: " + Join(g.blockers, "; ") else "")
  }

  function GoalLines(goals: seq<GoalState>): seq<string> {
    seq(|goals|, i requires 0 <= i < |goals| => GoalLine(goals[i]))
  }

  /** The header is always there; goals follow while they fit. With k goals shown the text costs at most
      the larger of the budget and the header, plus k. */
  method RenderGoalBlock(goals: seq<GoalState>, budget: int) returns (text: string, shown: nat)
    ensures goals == [] ==> text == "" && shown == 0
    ensures goals != [] ==>
              && shown <= |goals| && text == Join([GOAL_HEADER] + GoalLines(goals[..shown]), "\n")
              && IsFit(Costs(GoalLines(goals)), Estimate(GOAL_HEADER), budget, shown)
              && Estimate(text) <= (if shown > 0 then budget else 3) + shown
  {
    if |goals| == 0 { return "", 0; }
    var lines, total := TakeFitting(GoalLines(goals), Estimate(GOAL_HEADER), budget);
    var parts := [GOAL_HEADER] + lines;
    text, shown := Join(parts, "\n"), |lines|;
    assert GoalLines(goals[..shown]) == GoalLines(goals)[..shown];
    JoinCost(parts, "\n");
    assert Costs(parts)[1..] == Costs(lines);
    assert Sum(Costs(parts)) == Estimate(GOAL_HEADER) + Sum(Costs(lines));
    if shown > 0 { FitSum(GoalLines(goals), lines, Estimate(GOAL_HEADER), budget); }
    assert |GOAL_HEADER| == 15;
  }

  function RefLine(refId: string, item: WorkingSetItem): string {
    "[Evidence " + refId + "] supports: " + Upto(item.text, 80)
  }

  function ItemRefs(item: WorkingSetItem): seq<string> {
    seq(|item.evidenceRefIds|, i requires 0 <= i < |item.evidenceRefIds| => RefLine(item.evidenceRefIds[i], item))
  }

  /** All reference lines, item by item. */
  function AllRefs(items: seq<WorkingSetItem>): seq<string> {
    if items == [] then [] else AllRefs(items[..|items| - 1]) + ItemRefs(items[|items| - 1])
  }

  lemma {:induction false} AllRefsPrefix(items: seq<WorkingSetItem>, i: nat)
    requires i < |items|
    ensures AllRefs(items[..i]) + ItemRefs(items[i]) == AllRefs(items[..i + 1]) <= AllRefs(items)
  {
    assert items[..i + 1][..i] == items[..i];
    if i + 1 < |items| {
      AllRefsUpTo(items, i + 1, |items|);
    }
    assert items[..|items|] == items;
  }

  lemma {:induction false} AllRefsUpTo(items: seq<WorkingSetItem>, i: nat, j: nat)
    requires i <= j <= |items|
    ensures AllRefs(items[..i]) <= AllRefs(items[..j])
  {
    if i < j {
      AllRefsUpTo(items, i, j - 1);
      assert items[..j][..j - 1] == items[..j - 1];
    }
  }

  /** The loops' invariant: the lines taken so far are the first ones, and their cost is known. */
  ghost predicate Taken(all: seq<string>, refs: seq<string>, used: nat, budget: int) {
    && |refs| <= |all| && refs == all[..|refs|]
    && used == Sum(Costs(all)[..|refs|]) && (refs != [] ==> used <= budget)
  }

  lemma FitText(all: seq<string>, refs: seq<string>, budget: int)
    requires |refs| <= |all| && refs == all[..|refs|] && refs != [] && IsFit(Costs(all), 0, budget, |refs|)
    ensures Estimate(Join(refs, "\n")) <= budget + |refs| - 1
  {
    FitSum(all, refs, 0, budget);
    LineCost(refs);
  }

  lemma LineCost(refs: seq<string>)
    requires refs != []
    ensures Estimate(Join(refs, "\n")) <= Sum(Costs(refs)) + |refs| - 1
  {
    JoinCost(refs, "\n");
    var k := |refs|;
    assert |"\n"| * (k - 1) == k - 1;
    assert 3 * k + (k - 1) == 4 * (k - 1) + 3;
  }

  /** The inner loop, over the lines of one item. */
  method TakeRefs(own: seq<string>, refs0: seq<string>, used0: nat, budget: int, ghost all: seq<string>)
    returns (refs: seq<string>, used: nat, full: bool)
    requires refs0 + own <= all && Taken(all, refs0, used0, budget)
    ensures Taken(all, refs, used, budget)
    ensures if full then IsFit(Costs(all), 0, budget, |refs|) else refs == refs0 + own
  {
    refs, used, full := refs0, used0, false;
    for j := 0 to |own|
      invariant refs == refs0 + own[..j] && Taken(all, refs, used, budget)
    {
      assert all[|refs|] == (refs0 + own)[|refs|] == own[j];
      SumStep(Costs(all), |refs|);
      if used + Estimate(own[j]) > budget {
        full := true;
        return;
      }
      refs := refs + [own[j]];
      used := used + Estimate(own[j]);
    }
    assert own[..|own|] == own;
  }

  /** The nested loops stop for good at the first line that does not fit, so the result is the longest
      fitting prefix of all lines together. */
  method RenderEvidenceBlock(items: seq<WorkingSetItem>, budget: int) returns (text: string, shown: nat)
    ensures shown <= |AllRefs(items)| && text == Join(AllRefs(items)[..shown], "\n")
    ensures IsFit(Costs(AllRefs(items)), 0, budget, shown)
    ensures shown > 0 ==> Estimate(text) <= budget + shown - 1
  {
    ghost var all := AllRefs(items);
    var refs: seq<string>, used: nat, full := [], 0, false;
    var i := 0;
    while i < |items| && !full
      invariant i <= |items| && Taken(all, refs, used, budget)
      invariant if full then IsFit(Costs(all), 0, budget, |refs|) else refs == AllRefs(items[..i])
      decreases |items| - i, !full
    {
      AllRefsPrefix(items, i);
      refs, used, full := TakeRefs(ItemRefs(items[i]), refs, used, budget, all);
      i := i + 1;
    }
    assert items[..|items|] == items && all[..|all|] == all;
    text, shown := Join(refs, "\n"), |refs|;
    if shown > 0 { FitText(all, refs, budget); }
  }

  // ----- what the parts of an assembly are -----

  /** The shares: a fifth, a tenth and a twentieth, rounded towards zero, the first and the last capped; the
      working-set items get the rest. */
  lemma SharesExactly(effective: int, overlayMax: nat, evidenceMax: nat)
    ensures var b := SplitBudget(effective, overlayMax, evidenceMax);
            b.block3 == effective - b.block1 - b.block2 - b.block4
    ensures effective >= 0 ==>
              var b := SplitBudget(effective, overlayMax, evidenceMax);
              && 5 * b.block1 <= effective && b.block1 <= overlayMax && (b.block1 == overlayMax || 5 * b.block1 + 5 > effective)
              && 10 * b.block2 <= effective < 10 * b.block2 + 10
              && 20 * b.block4 <= effective && b.block4 <= evidenceMax
              && (b.block4 == evidenceMax || 20 * b.block4 + 20 > effective)
    ensures effective < 0 ==>
              var b := SplitBudget(effective, overlayMax, evidenceMax);
              && 5 * b.block1 - 5 < effective <= 5 * b.block1 <= 0
              && 10 * b.block2 - 10 < effective <= 10 * b.block2 <= 0
              && 20 * b.block4 - 20 < effective <= 20 * b.block4 <= 0
  {
  }

  /** The effective budget is the smallest of the limits that apply: the profile's, a positive one of the
      caller, and the fraction of the reported window, or of the fallback window when none is reported. */
  lemma EffectiveBudgetExactly(profileMax: nat, openclaw: Option<int>, window: Option<int>, num: nat, den: nat,
                               dynamic: bool, fallbackWindow: nat)
    requires den > 0 && (window.Some? ==> window.value >= 0)
    ensures var budget := Smallest(BudgetSources(profileMax, openclaw, window, num, den, dynamic, fallbackWindow)).tokens;
            var caller := openclaw.Some? && openclaw.value > 0;
            var known := window.Some? && window.value > 0;
            var share := (if known then window.value else fallbackWindow) * num / den;
            && budget <= profileMax && (caller ==> budget <= openclaw.value) && (known || dynamic ==> budget <= share)
            && (budget == profileMax || (caller && budget == openclaw.value) || ((known || dynamic) && budget == share))
  {
    var sources := BudgetSources(profileMax, openclaw, window, num, den, dynamic, fallbackWindow);
    if window.Some? { Products(window.value, num); }
    Products(fallbackWindow, num);
    SmallestCorrect(sources);
    var s := Smallest(sources);
    assert sources[0] == Source(profileMax, "profile") && sources[0] in sources;
    if openclaw.Some? && openclaw.value > 0 { assert sources[1] in sources; }
    assert sources[|sources| - 1] in sources;
    var i :| 0 <= i < |sources| && sources[i] == s;
  }

  /** No occurrence of `c` after position `k`. */
  predicate LastAt(text: string, c: char, k: nat) {
    k < |text| && text[k] == c && c !in text[k + 1..]
  }

  lemma {:induction false} LastIndexExactly(text: string, c: char)
    ensures LastIndex(text, c) == -1 <==> c !in text
    ensures c in text ==> LastAt(text, c, LastIndex(text, c))
  {
    if text != "" {
      var n := |text| - 1;
      assert text == text[..n] + [text[n]];
      if text[n] != c {
        LastIndexExactly(text[..n], c);
        var k := LastIndex(text, c);
        if k >= 0 { assert text[k + 1..] == text[..n][k + 1..] + [text[n]]; }
      }
    }
  }

  /** Where a text over its budget is cut: at the last newline of the room there is, if it lies in the second
      half; else at the last blank, if it lies there; else at the end of the room. */
  lemma CutExactly(text: string, budget: int)
    requires budget >= 1 && |text| > 4 * budget
    ensures var room := text[..4 * budget - 3];
            TruncateToBudget(text, budget) == room[..CutPlace(room)] + "..." && CutsAt(room, CutPlace(room))
  {
    var room := text[..4 * budget - 3];
    assert Upto(text, budget * 4 - 3) == room;
    CutPlaceExactly(room);
    var k := CutPlace(room);
    assert Upto(room, k) == room[..k] && room[..|room|] == room;
  }

  function CutPlace(room: string): (k: nat)
    ensures k <= |room|
  {
    var newline, blank := LastIndex(room, '\n'), LastIndex(room, ' ');
    if newline > |room| / 2 then newline else if blank > |room| / 2 then blank else |room|
  }

  ghost predicate CutsAt(room: string, k: nat) {
    var half := |room| / 2;
    && (k < |room| ==> k > half && (LastAt(room, '\n', k) || LastAt(room, ' ', k)))
    && (forall i :: half < i < |room| && room[i] == '\n' ==> k < |room| && LastAt(room, '\n', k))
    && (k == |room| ==> forall i :: half < i < |room| ==> room[i] != '\n' && room[i] != ' ')
  }

  lemma CutPlaceExactly(room: string)
    ensures CutsAt(room, CutPlace(room))
  {
    LastOf(room, '\n');
    LastOf(room, ' ');
  }

  lemma LastOf(text: string, c: char)
    ensures LastIndex(text, c) >= 0 ==> LastAt(text, c, LastIndex(text, c))
    ensures forall i :: LastIndex(text, c) < i < |text| ==> text[i] != c
  {
    LastIndexExactly(text, c);
    NoneAfter(text, c, LastIndex(text, c));
  }

  lemma NoneAfter(text: string, c: char, last: int)
    requires (last == -1 && c !in text) || (0 <= last && LastAt(text, c, last))
    ensures forall i :: last < i < |text| ==> text[i] != c
  {
    if last >= 0 {
      forall i | last < i < |text| ensures text[i] != c {
        assert text[last + 1..][i - last - 1] == text[i];
      }
    }
  }

  const CLASSES := ["policy", "procedural", "semantic", "episodic", "working_memory"]

  /** The class order of block 3, on its result. */
  lemma OrderExactly(items: seq<WorkingSetItem>, i: nat, j: nat)
    requires i < j < |items|
    ensures var order := OrderByClassThenScore(items);
            && |order| == |items| && multiset(order) == multiset(items)
            && (order[i].category == order[j].category ==> order[i].score >= order[j].score)
            && (forall c, d :: 0 <= c < 5 && 0 <= d < 5 && order[i].category == CLASSES[c] && order[j].category == CLASSES[d] ==> c <= d)
            && (order[j].category in CLASSES ==> order[i].category in CLASSES)
            && (order[i].category !in CLASSES && order[j].category !in CLASSES ==> order[i].score >= order[j].score)
  {
    var order := OrderByClassThenScore(items);
    OrderCorrect(items);
    assert |order| == |multiset(order)| == |multiset(items)| == |items|;
    assert Before(order[i], order[j]);
    ClassesRanked(order[i].category);
    ClassesRanked(order[j].category);
  }

  lemma ClassesRanked(category: string)
    ensures category !in CLASSES <==> ClassPriority(category) == 99
    ensures forall c :: 0 <= c < 5 && category == CLASSES[c] ==> ClassPriority(category) == c
  {
    assert CLASSES[0] in CLASSES && CLASSES[1] in CLASSES && CLASSES[2] in CLASSES && CLASSES[3] in CLASSES && CLASSES[4] in CLASSES;
  }

  /** Items of the same category and score keep the order of the snapshot. */
  lemma TiesExactly(items: seq<WorkingSetItem>, category: string, score: real)
    ensures Keep(OrderByClassThenScore(items), (it: WorkingSetItem) => it.category == category && it.score == score)
            == Keep(items, (it: WorkingSetItem) => it.category == category && it.score == score)
  {
    OrderCorrect(items);
    var e := WorkingSetItem("", "", "", category, score, false, []);
    var same := (it: WorkingSetItem) => it.category == category && it.score == score;
    var order := OrderByClassThenScore(items);
    assert Ties(order, e, Before) == Ties(items, e, Before);
    TiesKept(order, e, same);
    TiesKept(items, e, same);
  }

  lemma TiesKept(xs: seq<WorkingSetItem>, e: WorkingSetItem, same: WorkingSetItem -> bool)
    requires forall x :: same(x) ==> Before(x, e) && Before(e, x)
    ensures Keep(Ties(xs, e, Before), same) == Keep(xs, same)
  {
    var tie := (x: WorkingSetItem) => Before(x, e) && Before(e, x);
    TiesAre(xs, e, Before, tie);
    KeepTwice(xs, tie, same, same);
  }

  /** Which items block 1 and block 3 take: those with the flag and those without, in snapshot order. */
  lemma EligibleExactly(items: seq<WorkingSetItem>, yes: bool) returns (at: seq<nat>)
    ensures |at| == |Eligible(items, yes)|
    ensures forall k :: 0 <= k < |at| ==> at[k] < |items|
    ensures forall k :: 0 <= k < |at| ==> Eligible(items, yes)[k] == items[at[k]] && items[at[k]].systemPromptEligible == yes
    ensures forall k, l :: 0 <= k < l < |at| ==> at[k] < at[l]
    ensures forall i :: 0 <= i < |items| && items[i].systemPromptEligible == yes ==> i in at
  {
    at := KeepPositions(items, (it: WorkingSetItem) => it.systemPromptEligible == yes);
  }

  /** The lines of block 1: a bullet for each constraint; for guard rules a heading and a bullet each, set off
      by an empty line when there are constraints. */
  lemma Block1Exactly(items: seq<WorkingSetItem>, guards: seq<string>)
    ensures var parts, c, g := Block1Parts(items, guards), Eligible(items, true), |guards|;
            && |parts| == |c| + (if g == 0 then 0 else g + 1 + if c == [] then 0 else 1)
            && (forall i :: 0 <= i < |c| ==> parts[i] == "- " + c[i].text)
            && (g > 0 ==> parts[|parts| - g - 1] == "## Guard Rules" && (c != [] ==> parts[|c|] == ""))
            && (forall j :: 0 <= j < g ==> parts[|parts| - g + j] == "- " + guards[j])
  {
  }

  /** A text of at most 400 characters is shown whole after its label. Of a longer one at most 120 characters
      are shown, on one line, with the call that brings the rest. */
  lemma ItemExactly(item: WorkingSetItem) returns (shown: string, from: nat)
    ensures |item.text| <= 400 ==> RenderItem(item) == "[" + item.provenance + "] " + shown && shown == item.text
    ensures |item.text| > 400 ==>
              RenderItem(item) == "[Memory (" + item.provenance + "): " + shown + "...]\n"
                                  + " -> Call artifact_search(\"" + item.id + "\") for full content"
    ensures |item.text| > 400 ==>
              from + |shown| <= 120 && '\n' !in shown
              && forall i :: 0 <= i < |shown| ==>
                   shown[i] == item.text[from + i] || (shown[i] == ' ' && item.text[from + i] == '\n')
  {
    if |item.text| > 400 {
      var spaced := Spaced(item.text[..120]);
      var a, b := TrimExactly(spaced, PySpace);
      shown, from := spaced[a..b], a;
      assert '\n' !in spaced;
      assert forall i :: 0 <= i < |shown| ==> shown[i] == spaced[a + i];
    } else {
      shown, from := item.text, 0;
    }
  }

  /** The parts of a goal's line, in order and with nothing between them. */
  lemma GoalLineExactly(g: GoalState) returns (title: string, description: string, status: string, blockers: string)
    ensures GoalLine(g) == title + description + status + blockers
    ensures title == "- **" + g.title + "**"
    ensures description == if g.description == "" then "" else ": " + g.description
    ensures status == if g.status == "" then "" else " [" + g.status + "]"
    ensures g.blockers == [] <==> blockers == ""
    ensures forall i :: 0 <= i < |g.blockers| ==> Mentions(blockers, g.blockers[i])
    ensures g.blockers != [] ==> blockers == "\n  BLOCKERS: " + Join(g.blockers, "; ")
  {
    title := "- **" + g.title + "**";
    description := if g.description == "" then "" else ": " + g.description;
    status := if g.status == "" then "" else " [" + g.status + "]";
    blockers := if g.blockers == [] then "" else "\n  BLOCKERS: " + Join(g.blockers, "; ");
    forall i | 0 <= i < |g.blockers| ensures Mentions(blockers, g.blockers[i]) {
      var before, after := JoinAround(g.blockers, "; ", i);
      assert blockers == ("\n  BLOCKERS: " + before) + g.blockers[i] + after;
    }
  }

  ghost predicate Mentions(text: string, part: string) {
    exists x: string, y: string :: text == x + part + y
  }

  /** The reference lines follow each other item by item; each names its evidence and shows the first 80
      characters of its item. */
  lemma RefsExactly(items: seq<WorkingSetItem>, i: nat, k: nat)
    requires i < |items| && k < |items[i].evidenceRefIds|
    ensures |AllRefs([])| == 0 && |AllRefs(items[..i + 1])| == |AllRefs(items[..i])| + |items[i].evidenceRefIds|
    ensures var item, at := items[i], |AllRefs(items[..i])| + k;
            && at < |AllRefs(items)|
            && AllRefs(items)[at] == "[Evidence " + item.evidenceRefIds[k] + "] supports: "
                                     + if |item.text| <= 80 then item.text else item.text[..80]
  {
    AllRefsPrefix(items, i);
    var before, own := AllRefs(items[..i]), ItemRefs(items[i]);
    assert (before + own)[|before| + k] == own[k];
    assert AllRefs(items)[|before| + k] == AllRefs(items)[..|before + own|][|before| + k];
    assert own[k] == RefLine(items[i].evidenceRefIds[k], items[i]);
  }
}
