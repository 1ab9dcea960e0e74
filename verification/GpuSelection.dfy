/** What the GPU selection promises: when it lists, what it lists, and that the order in which the
    devices were enumerated does not matter. */
module GpuSelection {
  import opened Prelude
  import opened Gpu

  ghost predicate DistinctPaths(cards: seq<Card>) {
    forall i, j | 0 <= i < j < |cards| :: cards[i].path != cards[j].path
  }

  // ---- the ranking is a strict total order ----

  lemma PathLessAsymmetric(a: string, b: string)
    ensures !(PathLess(a, b) && PathLess(b, a))
  {
  }

  lemma PathLessTransitive(a: string, b: string, c: string)
    requires PathLess(a, b) && PathLess(b, c)
    ensures PathLess(a, c)
  {
  }

  lemma PathLessTotal(a: string, b: string)
    ensures a == b || PathLess(a, b) || PathLess(b, a)
  {
    if a != [] && b != [] && a[0] == b[0] {
      PathLessTotal(a[1..], b[1..]);
      assert a == [a[0]] + a[1..] && b == [b[0]] + b[1..];
    }
  }

  lemma BeforeTransitive(a: Card, b: Card, c: Card)
    requires Before(a, b) && Before(b, c)
    ensures Before(a, c)
  {
    if a.external == c.external && a.vram == c.vram {
      PathLessTransitive(a.path, b.path, c.path);
    }
  }

  lemma BeforeStrictTotal(a: Card, b: Card)
    ensures !(Before(a, b) && Before(b, a))
    ensures a.path != b.path ==> Before(a, b) || Before(b, a)
  {
    PathLessAsymmetric(a.path, b.path);
    PathLessTotal(a.path, b.path);
  }

  ghost predicate Ranked(ds: seq<Card>) {
    forall j, k | 0 <= j < k < |ds| :: Before(ds[j], ds[k])
  }

  ghost predicate SameCards(s: seq<Card>, t: seq<Card>) {
    forall c :: c in s <==> c in t
  }

  /** There is one way to rank a set of cards. */
  lemma {:induction false} RankingIsUnique(s: seq<Card>, t: seq<Card>)
    requires Ranked(s) && Ranked(t) && SameCards(s, t)
    ensures s == t
  {
    assert t != [] ==> t[0] in t;
    if s != [] {
      assert s[0] in t && t[0] in s;
      BeforeStrictTotal(s[0], t[0]);
      assert s[0] == t[0];
      forall c ensures c in s[1..] <==> c in t[1..] {
        BeforeStrictTotal(s[0], s[0]);
        assert c in s[1..] ==> c != s[0] && c in s;
        assert c in t[1..] ==> c != t[0] && c in t;
      }
      RankingIsUnique(s[1..], t[1..]);
    }
  }

  // ---- cards behind indices ----

  function At(cards: seq<Card>, s: seq<nat>): (r: seq<Card>)
    requires Below(s, |cards|)
    ensures |r| == |s|
    ensures forall k | 0 <= k < |s| :: r[k] == cards[s[k]]
  {
    seq(|s|, k requires 0 <= k < |s| => cards[s[k]])
  }

  lemma {:induction false} InsertHas(cards: seq<Card>, i: nat, sorted: seq<nat>)
    requires i < |cards| && Below(sorted, |cards|)
    ensures forall k: nat :: k in Insert(cards, i, sorted) <==> k == i || k in sorted
  {
    if sorted != [] {
      var n := |sorted| - 1;
      assert sorted == sorted[..n] + [sorted[n]];
      InsertHas(cards, i, sorted[..n]);
    }
  }

  lemma InsertBeforeLast(cards: seq<Card>, i: nat, sorted: seq<nat>, r: seq<nat>)
    requires i < |cards| && Below(sorted, |cards|) && sorted != [] && Below(r, |cards|)
    requires Ranked(At(cards, sorted)) && Before(cards[i], cards[sorted[|sorted| - 1]])
    requires Ranked(At(cards, r)) && forall k: nat :: k in r <==> k == i || k in sorted[..|sorted| - 1]
    ensures Ranked(At(cards, r + [sorted[|sorted| - 1]]))
  {
    var n := |sorted| - 1;
    forall j | 0 <= j < |r| ensures Before(cards[r[j]], cards[sorted[n]]) {
      assert r[j] in r;
      if r[j] != i {
        var k :| 0 <= k < n && sorted[..n][k] == r[j];
        assert Before(At(cards, sorted)[k], At(cards, sorted)[n]);
      }
    }
    assert At(cards, r + [sorted[n]]) == At(cards, r) + [cards[sorted[n]]];
  }

  lemma InsertAfterLast(cards: seq<Card>, i: nat, sorted: seq<nat>)
    requires i < |cards| && Below(sorted, |cards|) && sorted != []
    requires Ranked(At(cards, sorted)) && Before(cards[sorted[|sorted| - 1]], cards[i])
    ensures Ranked(At(cards, sorted + [i]))
  {
    var n := |sorted| - 1;
    forall j | 0 <= j < n ensures Before(cards[sorted[j]], cards[i]) {
      assert Before(At(cards, sorted)[j], At(cards, sorted)[n]);
      BeforeTransitive(cards[sorted[j]], cards[sorted[n]], cards[i]);
    }
    assert At(cards, sorted + [i]) == At(cards, sorted) + [cards[i]];
  }

  lemma {:induction false} InsertRanks(cards: seq<Card>, i: nat, sorted: seq<nat>)
    requires DistinctPaths(cards) && i < |cards| && Below(sorted, |cards|)
    requires i !in sorted && Ranked(At(cards, sorted))
    ensures Ranked(At(cards, Insert(cards, i, sorted)))
  {
    if sorted != [] {
      var n := |sorted| - 1;
      assert sorted[n] in sorted;
      BeforeStrictTotal(cards[i], cards[sorted[n]]);
      if Before(cards[i], cards[sorted[n]]) {
        assert At(cards, sorted[..n]) == At(cards, sorted)[..n];
        InsertRanks(cards, i, sorted[..n]);
        InsertHas(cards, i, sorted[..n]);
        InsertBeforeLast(cards, i, sorted, Insert(cards, i, sorted[..n]));
      } else {
        InsertAfterLast(cards, i, sorted);
      }
    }
  }

  lemma {:induction false} SortRanks(cards: seq<Card>, s: seq<nat>)
    requires DistinctPaths(cards) && Below(s, |cards|)
    requires forall j, k | 0 <= j < k < |s| :: s[j] != s[k]
    ensures Ranked(At(cards, Sort(cards, s)))
    ensures forall k: nat :: k in Sort(cards, s) <==> k in s
  {
    if s != [] {
      var n := |s| - 1;
      assert s == s[..n] + [s[n]];
      SortRanks(cards, s[..n]);
      InsertRanks(cards, s[n], Sort(cards, s[..n]));
      InsertHas(cards, s[n], Sort(cards, s[..n]));
    }
  }

  lemma DiscretesAreTheOthers(cards: seq<Card>, integrated: nat)
    requires DistinctPaths(cards) && integrated < |cards|
    ensures Ranked(At(cards, Discretes(cards, integrated)))
    ensures forall i: nat :: i in Discretes(cards, integrated) <==> i < |cards| && i != integrated
  {
    SortRanks(cards, Indices(|cards|, (i: nat) => i != integrated));
  }

  // ---- the integrated card ----

  /** The card that boot_vga and the smallest VRAM agree on, whatever order they were read in. */
  ghost predicate IsIntegrated(cards: seq<Card>, c: Card) {
    && c in cards
    && (forall d | d in cards :: c.vram <= d.vram)
    && (|| (c.bootVga == 1 && forall d | d in cards && d.bootVga == 1 :: d == c)
        || (forall d | d in cards :: d.bootVga != 1 && (d.vram == c.vram ==> d == c)))
  }

  lemma TwoDiffer(s: seq<nat>)
    requires |s| >= 2 && forall j, k | 0 <= j < k < |s| :: s[j] < s[k]
    ensures exists j, k :: j in s && k in s && j != k
  {
    assert s[0] in s && s[1] in s && s[0] < s[1];
  }

  lemma SingleIndex(s: seq<nat>, i: nat)
    requires forall j, k | 0 <= j < k < |s| :: s[j] < s[k]
    requires i in s && forall k: nat | k in s :: k == i
    ensures |s| == 1 && s[0] == i
  {
    if |s| >= 2 {
      TwoDiffer(s);
      assert false;
    }
  }

  lemma IntegratedIsIntegrated(cards: seq<Card>)
    requires DistinctPaths(cards) && IntegratedCard(cards).Some?
    ensures IsIntegrated(cards, cards[IntegratedCard(cards).value])
  {
    var least := MinVram(cards);
    var byVram := Indices(|cards|, (i: nat) => i < |cards| && cards[i].vram == least);
    var byVga := Indices(|cards|, (i: nat) => i < |cards| && cards[i].bootVga == 1);
    var i := IntegratedCard(cards).value;
    assert i in byVram;
    assert forall k | 0 <= k < |byVga| :: byVga[k] in byVga;
    assert |byVga| == 1 ==> cards[i].bootVga == 1;
    forall d | d in cards && d.bootVga == 1 ensures byVga != [] && (|byVga| == 1 ==> d == cards[i]) {
      var k: nat :| k < |cards| && cards[k] == d;
      assert k in byVga;
    }
    forall d | d in cards && d.vram == least ensures |byVram| == 1 ==> d == cards[i] {
      var k: nat :| k < |cards| && cards[k] == d;
      assert k in byVram;
    }
    if |byVga| != 1 {
      assert forall d | d in cards :: d.bootVga != 1 && (d.vram == cards[i].vram ==> d == cards[i]);
    }
  }

  lemma IntegratedIsFound(cards: seq<Card>, i: nat)
    requires DistinctPaths(cards) && i < |cards| && IsIntegrated(cards, cards[i])
    ensures IntegratedCard(cards) == Some(i)
  {
    var least := MinVram(cards);
    var byVram := Indices(|cards|, (k: nat) => k < |cards| && cards[k].vram == least);
    var byVga := Indices(|cards|, (k: nat) => k < |cards| && cards[k].bootVga == 1);
    var someVga := if byVga == [] then i else byVga[0];
    assert cards[someVga] in cards && (byVga != [] ==> someVga in byVga);
    assert cards[i].vram == least;
    assert i in byVram;
    forall k: nat | k < |cards| && cards[k] == cards[i] ensures k == i {}
    if cards[i].bootVga == 1 {
      assert i in byVga;
      forall k: nat | k in byVga ensures k == i { assert cards[k] in cards; }
      SingleIndex(byVga, i);
    } else {
      assert byVga == [];
      forall k: nat | k in byVram ensures k == i { assert cards[k] in cards; }
      SingleIndex(byVram, i);
    }
  }

  /** Two enumerations of the same cards name the same integrated card, or both none. */
  lemma IntegratedIgnoresOrder(a: seq<Card>, b: seq<Card>)
    requires DistinctPaths(a) && DistinctPaths(b) && SameCards(a, b)
    ensures IntegratedCard(a).Some? <==> IntegratedCard(b).Some?
    ensures IntegratedCard(a).Some? ==> a[IntegratedCard(a).value] == b[IntegratedCard(b).value]
  {
    if IntegratedCard(a).Some? {
      Transfer(a, b);
    } else if IntegratedCard(b).Some? {
      Transfer(b, a);
    }
  }

  lemma Transfer(a: seq<Card>, b: seq<Card>)
    requires DistinctPaths(a) && DistinctPaths(b) && SameCards(a, b) && IntegratedCard(a).Some?
    ensures IntegratedCard(b).Some? && a[IntegratedCard(a).value] == b[IntegratedCard(b).value]
  {
    var c := a[IntegratedCard(a).value];
    IntegratedIsIntegrated(a);
    assert c in b;
    var j: nat :| j < |b| && b[j] == c;
    assert forall d :: d in a <==> d in b;
    assert IsIntegrated(b, c);
    IntegratedIsFound(b, j);
  }

  // ---- the list, as cards ----

  function Kept(ds: seq<Card>, primary: Card, keepIdle: bool): seq<Card> {
    if ds == [] then []
    else
      var n := |ds| - 1;
      Kept(ds[..n], primary, keepIdle)
      + if ds[n] != primary && (keepIdle || ds[n].Connected()) then [ds[n]] else []
  }

  function PrimaryCard(ig: Card, best: Card, mode: Mode): Card {
    match mode
    case Auto => if best.Connected() then best else ig
    case Dgpu => best
    case _ => ig
  }

  /** The list by cards: primary, integrated, then the ranked rest. */
  function ListedCards(ig: Card, ds: seq<Card>, mode: Mode): seq<Card>
    requires ds != []
  {
    var primary := PrimaryCard(ig, ds[0], mode);
    [primary] + (if ig != primary then [ig] else []) + Kept(ds, primary, mode == Auto)
  }

  lemma {:induction false} TrailingAt(cards: seq<Card>, s: seq<nat>, primary: nat, keepIdle: bool)
    requires DistinctPaths(cards) && Below(s, |cards|) && primary < |cards|
    ensures At(cards, Trailing(cards, s, primary, keepIdle)) == Kept(At(cards, s), cards[primary], keepIdle)
  {
    if s != [] {
      var n := |s| - 1;
      TrailingAt(cards, s[..n], primary, keepIdle);
      assert At(cards, s)[..n] == At(cards, s[..n]);
      assert cards[s[n]] == cards[primary] ==> s[n] == primary;
    }
  }

  lemma ListedAt(cards: seq<Card>, mode: Mode, i: nat)
    requires DistinctPaths(cards) && i < |cards| && |cards| >= 2
    ensures At(cards, Listed(cards, mode, i)) == ListedCards(cards[i], At(cards, Discretes(cards, i)), mode)
  {
    hide Discretes, Trailing, Kept, At;
    var ds := Discretes(cards, i);
    var primary := Primary(cards, mode, i, ds[0]);
    var head := [primary] + if i != primary then [i] else [];
    TrailingAt(cards, ds, primary, mode == Auto);
    assert cards[i] == cards[primary] ==> i == primary;
    AtConcat(cards, head, Trailing(cards, ds, primary, mode == Auto));
    assert At(cards, head) == [cards[primary]] + if i != primary then [cards[i]] else [];
  }

  lemma AtConcat(cards: seq<Card>, s: seq<nat>, t: seq<nat>)
    requires Below(s, |cards|) && Below(t, |cards|)
    ensures At(cards, s + t) == At(cards, s) + At(cards, t)
  {
  }

  /** The same discrete cards in the same order, whatever the enumeration. */
  lemma DiscretesIgnoreOrder(a: seq<Card>, i: nat, b: seq<Card>, j: nat)
    requires DistinctPaths(a) && DistinctPaths(b) && SameCards(a, b)
    requires i < |a| && j < |b| && a[i] == b[j]
    ensures At(a, Discretes(a, i)) == At(b, Discretes(b, j))
  {
    DiscretesAreTheOthers(a, i);
    DiscretesAreTheOthers(b, j);
    forall c ensures c in At(a, Discretes(a, i)) <==> c in a && c != a[i] { MemberAt(a, i, c); }
    forall c ensures c in At(b, Discretes(b, j)) <==> c in b && c != b[j] { MemberAt(b, j, c); }
    RankingIsUnique(At(a, Discretes(a, i)), At(b, Discretes(b, j)));
  }

  lemma MemberAt(cards: seq<Card>, i: nat, c: Card)
    requires DistinctPaths(cards) && i < |cards|
    ensures c in At(cards, Discretes(cards, i)) <==> c in cards && c != cards[i]
  {
    DiscretesAreTheOthers(cards, i);
    var ds := Discretes(cards, i);
    if c in At(cards, ds) {
      var k :| 0 <= k < |ds| && At(cards, ds)[k] == c;
      assert ds[k] in ds;
    }
    if c in cards && c != cards[i] {
      var m: nat :| m < |cards| && cards[m] == c;
      assert m in ds;
      var k :| 0 <= k < |ds| && ds[k] == m;
      assert At(cards, ds)[k] == c;
    }
  }

  lemma {:induction false} SameCardsSameLength(a: seq<Card>, b: seq<Card>)
    requires DistinctPaths(a) && DistinctPaths(b) && SameCards(a, b)
    ensures |a| == |b|
  {
    Size(a);
    Size(b);
    assert (set c | c in a) == (set c | c in b);
  }

  lemma {:induction false} Size(a: seq<Card>)
    requires DistinctPaths(a)
    ensures |set c | c in a| == |a|
  {
    if a != [] {
      var n := |a| - 1;
      Size(a[..n]);
      assert a == a[..n] + [a[n]];
      assert a[n] !in a[..n];
      assert (set c | c in a) == (set c | c in a[..n]) + {a[n]};
    }
  }

  lemma ListsIgnoreOrder(s: Snapshot, i: nat, t: Snapshot, j: nat, mode: Mode, source: Source)
    requires DistinctPaths(s.cards) && DistinctPaths(t.cards) && SameCards(s.cards, t.cards)
    requires |s.cards| == |t.cards| >= 2 && s.lidClosed == t.lidClosed
    requires i < |s.cards| && j < |t.cards| && s.cards[i] == t.cards[j]
    ensures Selected(s, mode, source, i) == Selected(t, mode, source, j)
  {
    var a, b := s.cards, t.cards;
    DiscretesIgnoreOrder(a, i, b, j);
    ListedAt(a, mode, i);
    ListedAt(b, mode, j);
    SameListSameNodes(a, Listed(a, mode, i), b, Listed(b, mode, j));
    assert At(a, Discretes(a, i))[0] == At(b, Discretes(b, j))[0];
    assert AnyExternal(a) <==> AnyExternal(b);
  }

  lemma ChoiceIgnoresOrder(s: Snapshot, i: Option<nat>, t: Snapshot, j: Option<nat>, mode: Mode, source: Source)
    requires DistinctPaths(s.cards) && DistinctPaths(t.cards) && SameCards(s.cards, t.cards)
    requires |s.cards| == |t.cards| && s.nonPciDisplay == t.nonPciDisplay && s.lidClosed == t.lidClosed
    requires i.Some? <==> j.Some?
    requires i.Some? ==> i.value < |s.cards| && j.value < |t.cards| && s.cards[i.value] == t.cards[j.value]
    ensures Choice(s, mode, source, i) == Choice(t, mode, source, j)
  {
    if |s.cards| >= 2 && i.Some? {
      ListsIgnoreOrder(s, i.value, t, j.value, mode, source);
    }
  }

  /** Selection does not depend on enumeration order: any two snapshots with the same cards, each path
      once, give the same list for the same reason, in every mode. */
  lemma SelectionIgnoresOrder(s: Snapshot, t: Snapshot, mode: Mode, source: Source)
    requires DistinctPaths(s.cards) && DistinctPaths(t.cards) && SameCards(s.cards, t.cards)
    requires s.nonPciDisplay == t.nonPciDisplay && s.lidClosed == t.lidClosed
    ensures Desired(s, mode, source) == Desired(t, mode, source)
  {
    SameCardsSameLength(s.cards, t.cards);
    IntegratedIgnoresOrder(s.cards, t.cards);
    ChoiceIgnoresOrder(s, IntegratedCard(s.cards), t, IntegratedCard(t.cards), mode, source);
  }

  lemma SameListSameNodes(a: seq<Card>, la: seq<nat>, b: seq<Card>, lb: seq<nat>)
    requires Below(la, |a|) && Below(lb, |b|) && At(a, la) == At(b, lb)
    ensures Nodes(a, la) == Nodes(b, lb)
    ensures forall lid :: Usable(a, la, lid) <==> Usable(b, lb, lid)
  {
    assert |la| == |lb|;
    assert forall k | 0 <= k < |la| :: a[la[k]] == At(a, la)[k] == At(b, lb)[k] == b[lb[k]];
  }

  // ---- when there is a list, and what is on it ----

  ghost predicate NoRepeats<T>(s: seq<T>) {
    forall j, k | 0 <= j < k < |s| :: s[j] != s[k]
  }

  lemma {:induction false} TrailingHas(cards: seq<Card>, s: seq<nat>, primary: nat, keepIdle: bool)
    requires Below(s, |cards|) && NoRepeats(s)
    ensures var r := Trailing(cards, s, primary, keepIdle);
      && NoRepeats(r)
      && forall k: nat :: k in r <==> k in s && k != primary && (keepIdle || cards[k].Connected())
  {
    if s != [] {
      var n := |s| - 1;
      assert s == s[..n] + [s[n]];
      assert forall k: nat :: k in s <==> k in s[..n] || k == s[n];
      TrailingHas(cards, s[..n], primary, keepIdle);
      assert s[n] !in s[..n];
    }
  }

  lemma RankedHasNoRepeats(cards: seq<Card>, s: seq<nat>)
    requires Below(s, |cards|) && Ranked(At(cards, s))
    ensures NoRepeats(s)
  {
    forall j, k | 0 <= j < k < |s| ensures s[j] != s[k] {
      assert Before(At(cards, s)[j], At(cards, s)[k]);
      BeforeStrictTotal(At(cards, s)[j], At(cards, s)[k]);
    }
  }

  lemma HeadAndTail(p: nat, i: nat, tail: seq<nat>)
    requires NoRepeats(tail) && p !in tail && i !in tail
    ensures var r := [p] + (if i != p then [i] else []) + tail;
      NoRepeats(r) && forall k: nat :: k in r <==> k == p || k == i || k in tail
  {
    var head := [p] + if i != p then [i] else [];
    assert NoRepeats(head);
    assert forall k | 0 <= k < |tail| :: tail[k] in tail;
  }

  /** What a mode lists: the integrated card, everything connected, the best discrete in dgpu, and all
      cards in auto; each once. */
  lemma ListedHas(cards: seq<Card>, mode: Mode, i: nat)
    requires DistinctPaths(cards) && i < |cards| && |cards| >= 2
    ensures NoRepeats(Listed(cards, mode, i))
    ensures forall k: nat :: k in Listed(cards, mode, i) <==>
      k < |cards| && (mode == Auto || k == i || cards[k].Connected() || (mode == Dgpu && k == Discretes(cards, i)[0]))
  {
    var ds := Discretes(cards, i);
    DiscretesAreTheOthers(cards, i);
    RankedHasNoRepeats(cards, ds);
    assert ds[0] in ds;
    var primary := Primary(cards, mode, i, ds[0]);
    var tail := Trailing(cards, ds, primary, mode == Auto);
    TrailingHas(cards, ds, primary, mode == Auto);
    HeadAndTail(primary, i, tail);
  }

  /** There is a list exactly when the mode is on, there is a choice of cards and nothing outside it,
      one card is unambiguously integrated, and some output could light up. */
  lemma ListedExactlyWhen(snap: Snapshot, mode: Mode, source: Source)
    requires DistinctPaths(snap.cards)
    ensures Desired(snap, mode, source).0.Some? <==>
      && mode != Off && |snap.cards| >= 2 && !snap.nonPciDisplay
      && (exists c :: IsIntegrated(snap.cards, c))
      && (exists c :: c in snap.cards && (c.external > 0 || (!snap.lidClosed && c.edp > 0)))
  {
    hide Listed, Usable, IntegratedCard, Discretes, DistinctPaths;
    var cards := snap.cards;
    var found := IntegratedCard(cards);
    if found.Some? {
      IntegratedIsIntegrated(cards);
      if mode != Off && |cards| >= 2 {
        UsableExactlyWhen(cards, mode, found.value, snap.lidClosed);
      }
    } else if c :| IsIntegrated(cards, c) {
      var i: nat :| i < |cards| && cards[i] == c;
      IntegratedIsFound(cards, i);
    }
  }

  lemma UsableExactlyWhen(cards: seq<Card>, mode: Mode, i: nat, lidClosed: bool)
    requires DistinctPaths(cards) && i < |cards| && |cards| >= 2
    ensures Usable(cards, Listed(cards, mode, i), lidClosed) <==>
      exists c :: c in cards && (c.external > 0 || (!lidClosed && c.edp > 0))
  {
    hide Listed, Discretes, DistinctPaths, NoRepeats;
    ListedHas(cards, mode, i);
    var listed := Listed(cards, mode, i);
    if c :| c in cards && (c.external > 0 || (!lidClosed && c.edp > 0)) {
      var m: nat :| m < |cards| && cards[m] == c;
      assert m in listed;
      var k :| 0 <= k < |listed| && listed[k] == m;
      assert cards[listed[k]] == c;
    }
    if Usable(cards, listed, lidClosed) {
      var k :| 0 <= k < |listed| && (cards[listed[k]].external > 0 || (!lidClosed && cards[listed[k]].edp > 0));
      assert cards[listed[k]] in cards;
    }
  }

  ghost predicate DistinctNodes(cards: seq<Card>) {
    forall i, j | 0 <= i < j < |cards| :: cards[i].node != cards[j].node
  }

  lemma DevnodeInjective(a: Card, b: Card)
    requires Devnode(a) == Devnode(b)
    ensures a.node == b.node
  {
    assert Devnode(a)[9..] == a.node && Devnode(b)[9..] == b.node;
  }

  lemma NodesRepeatNothing(cards: seq<Card>, listed: seq<nat>)
    requires DistinctNodes(cards) && Below(listed, |cards|) && NoRepeats(listed)
    ensures NoRepeats(Nodes(cards, listed))
  {
    var list := Nodes(cards, listed);
    forall j, k | 0 <= j < k < |list| ensures list[j] != list[k] {
      if list[j] == list[k] {
        DevnodeInjective(cards[listed[j]], cards[listed[k]]);
      }
    }
  }

  /** What mode `mode` calls for, with `ig` integrated and `best` the best discrete. */
  predicate CalledFor(c: Card, mode: Mode, ig: Card, best: Card) {
    mode == Auto || c == ig || c.Connected() || (mode == Dgpu && c == best)
  }

  lemma NodesCalledFor(cards: seq<Card>, mode: Mode, i: nat)
    requires DistinctPaths(cards) && DistinctNodes(cards) && i < |cards| && |cards| >= 2
    ensures var list := Nodes(cards, Listed(cards, mode, i));
      && NoRepeats(list)
      && list[0] == Devnode(cards[Primary(cards, mode, i, Discretes(cards, i)[0])])
      && forall c | c in cards ::
           Devnode(c) in list <==> CalledFor(c, mode, cards[i], cards[Discretes(cards, i)[0]])
  {
    var listed := Listed(cards, mode, i);
    ListedHas(cards, mode, i);
    NodesRepeatNothing(cards, listed);
    forall c | c in cards
      ensures Devnode(c) in Nodes(cards, listed) <==> CalledFor(c, mode, cards[i], cards[Discretes(cards, i)[0]])
    {
      var m: nat :| m < |cards| && cards[m] == c;
      NodeListed(cards, listed, m);
    }
  }

  lemma ChoiceHolds(snap: Snapshot, mode: Mode, source: Source, i: nat)
    requires DistinctPaths(snap.cards) && DistinctNodes(snap.cards) && i < |snap.cards|
    requires Choice(snap, mode, source, Some(i)).0.Some?
    ensures |snap.cards| >= 2
    ensures Holds(Choice(snap, mode, source, Some(i)).0.value, snap.cards, mode, i, Discretes(snap.cards, i)[0])
  {
    hide Listed, Discretes, DistinctPaths, NoRepeats, CalledFor;
    NodesCalledFor(snap.cards, mode, i);
  }

  /** No repeats, the primary first, and exactly the nodes the mode calls for. */
  ghost predicate Holds(list: seq<string>, cards: seq<Card>, mode: Mode, i: nat, best: nat)
    requires i < |cards| && best < |cards|
  {
    && NoRepeats(list)
    && list != [] && list[0] == Devnode(cards[Primary(cards, mode, i, best)])
    && forall c | c in cards :: Devnode(c) in list <==> CalledFor(c, mode, cards[i], cards[best])
  }

  /** A list has no repeats, starts with the primary, and holds exactly the nodes its mode calls for. */
  lemma ListHolds(snap: Snapshot, mode: Mode, source: Source, i: nat)
    requires DistinctPaths(snap.cards) && DistinctNodes(snap.cards) && |snap.cards| >= 2
    requires IntegratedCard(snap.cards) == Some(i) && Desired(snap, mode, source).0.Some?
    ensures Holds(Desired(snap, mode, source).0.value, snap.cards, mode, i, Discretes(snap.cards, i)[0])
  {
    ChoiceHolds(snap, mode, source, i);
  }

  /** In auto the reason tells which card leads: a discrete that drives a display, or the integrated one
      with the discretes listed idle behind it. */
  lemma AutoReasonNamesThePrimary(snap: Snapshot, source: Source, i: nat)
    requires DistinctPaths(snap.cards) && DistinctNodes(snap.cards)
    requires IntegratedCard(snap.cards) == Some(i) && Desired(snap, Auto, source).0.Some?
    ensures var (list, reason) := Desired(snap, Auto, source);
      && list.value != []
      && if list.value[0] == Devnode(snap.cards[i]) then reason == "dgpu-idle-listed"
         else reason == "dgpu-has-display"
              && exists c :: c in snap.cards && c.Connected() && list.value[0] == Devnode(c)
  {
    hide Listed, Trailing, IntegratedCard, DistinctPaths, Discretes;
    var best := Discretes(snap.cards, i)[0];
    ListHolds(snap, Auto, source, i);
    DiscretesAreTheOthers(snap.cards, i);
    assert best in Discretes(snap.cards, i);
    if Devnode(snap.cards[best]) == Devnode(snap.cards[i]) {
      DevnodeInjective(snap.cards[best], snap.cards[i]);
    }
  }

  lemma NodeListed(cards: seq<Card>, listed: seq<nat>, m: nat)
    requires DistinctNodes(cards) && Below(listed, |cards|) && m < |cards|
    ensures Devnode(cards[m]) in Nodes(cards, listed) <==> m in listed
  {
    var list := Nodes(cards, listed);
    if Devnode(cards[m]) in list {
      var k :| 0 <= k < |list| && list[k] == Devnode(cards[m]);
      DevnodeInjective(cards[listed[k]], cards[m]);
    }
    if m in listed {
      var k :| 0 <= k < |listed| && listed[k] == m;
      assert list[k] == Devnode(cards[m]);
    }
  }

  ghost predicate Widens(narrow: seq<string>, wide: seq<string>, cards: seq<Card>) {
    forall c | c in cards && Devnode(c) in narrow :: Devnode(c) in wide
  }

  /** The three managed modes list together or not at all. */
  lemma ModesListTogether(snap: Snapshot, m1: Mode, m2: Mode, source: Source)
    requires DistinctPaths(snap.cards) && m1 != Off && m2 != Off
    ensures Desired(snap, m1, source).0.Some? <==> Desired(snap, m2, source).0.Some?
  {
    ListedExactlyWhen(snap, m1, source);
    ListedExactlyWhen(snap, m2, source);
  }

  /** What igpu lists, dgpu lists; what dgpu lists, auto lists; and auto lists every card. */
  lemma ModesGrow(snap: Snapshot, source: Source, i: nat, igpu: seq<string>, dgpu: seq<string>, auto: seq<string>)
    requires DistinctPaths(snap.cards) && DistinctNodes(snap.cards) && |snap.cards| >= 2
    requires IntegratedCard(snap.cards) == Some(i)
    requires Desired(snap, Igpu, source).0 == Some(igpu)
    requires Desired(snap, Dgpu, source).0 == Some(dgpu)
    requires Desired(snap, Auto, source).0 == Some(auto)
    ensures Widens(igpu, dgpu, snap.cards) && Widens(dgpu, auto, snap.cards)
    ensures forall c | c in snap.cards :: Devnode(c) in auto
  {
    ListHolds(snap, Igpu, source, i);
    ListHolds(snap, Dgpu, source, i);
    ListHolds(snap, Auto, source, i);
    HeldListsGrow(snap.cards, i, Discretes(snap.cards, i)[0], igpu, dgpu, auto);
  }

  lemma HeldListsGrow(cards: seq<Card>, i: nat, best: nat, igpu: seq<string>, dgpu: seq<string>, auto: seq<string>)
    requires i < |cards| && best < |cards|
    requires Holds(igpu, cards, Igpu, i, best) && Holds(dgpu, cards, Dgpu, i, best) && Holds(auto, cards, Auto, i, best)
    ensures Widens(igpu, dgpu, cards) && Widens(dgpu, auto, cards)
    ensures forall c | c in cards :: Devnode(c) in auto
  {
  }
}
