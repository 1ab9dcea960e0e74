/** The GPU selection in plain terms: who leads, who follows in which order, and in which words. */
module GpuListing {
  import opened Prelude
  import opened Gpu
  import opened GpuSelection

  /** `a` comes before `b` in a dictionary: where they first differ, `a` ends or has the smaller character. */
  ghost predicate DictionaryBefore(a: string, b: string) {
    exists k :: DiffersAt(a, b, k)
  }

  predicate DiffersAt(a: string, b: string, k: nat) {
    k <= |a| && k < |b| && a[..k] == b[..k] && (k == |a| || a[k] < b[k])
  }

  /** More externals, then more VRAM, then the path. */
  ghost predicate Beats(a: Card, b: Card) {
    || a.external > b.external
    || (a.external == b.external && a.vram > b.vram)
    || (a.external == b.external && a.vram == b.vram && DictionaryBefore(a.path, b.path))
  }

  predicate Lit(c: Card) {
    c.external > 0 || c.edp > 0
  }

  lemma {:induction false} PathsAreInDictionaryOrder(a: string, b: string)
    ensures PathLess(a, b) <==> DictionaryBefore(a, b)
    decreases |a|
  {
    if b == [] {
      assert !DictionaryBefore(a, b);
    } else if a == [] || a[0] != b[0] {
      if PathLess(a, b) {
        assert DiffersAt(a, b, 0);
      }
      forall k: nat | k > 0 ensures !DiffersAt(a, b, k) {
        if 0 < k <= |a| && k < |b| {
          assert a[..k][0] == a[0] && b[..k][0] == b[0];
        }
      }
    } else {
      PathsAreInDictionaryOrder(a[1..], b[1..]);
      if k: nat :| DiffersAt(a, b, k) {
        assert k > 0;
        assert a[1..][..k - 1] == a[..k][1..] && b[1..][..k - 1] == b[..k][1..];
        assert DiffersAt(a[1..], b[1..], k - 1);
      }
      if k: nat :| DiffersAt(a[1..], b[1..], k) {
        assert a[..k + 1] == [a[0]] + a[1..][..k] && b[..k + 1] == [b[0]] + b[1..][..k];
        assert DiffersAt(a, b, k + 1);
      }
    }
  }

  lemma RankIsBeating(a: Card, b: Card)
    ensures Before(a, b) <==> Beats(a, b)
  {
    PathsAreInDictionaryOrder(a.path, b.path);
  }

  /** The discrete card that no other discrete beats. */
  ghost predicate IsBestDiscrete(cards: seq<Card>, ig: Card, best: Card) {
    best in cards && best != ig && forall c | c in cards && c != ig && c != best :: Beats(best, c)
  }

  ghost predicate InOrder(cs: seq<Card>, from: nat) {
    forall j, k | from <= j < k < |cs| :: Beats(cs[j], cs[k])
  }

  lemma {:induction false} KeptIsRanked(ds: seq<Card>, primary: Card, keepIdle: bool)
    requires Ranked(ds)
    ensures Ranked(Kept(ds, primary, keepIdle))
    ensures forall c :: c in Kept(ds, primary, keepIdle) <==> c in ds && c != primary && (keepIdle || Lit(c))
  {
    if ds != [] {
      var n := |ds| - 1;
      KeptIsRanked(ds[..n], primary, keepIdle);
      assert ds == ds[..n] + [ds[n]];
      var front := Kept(ds[..n], primary, keepIdle);
      forall k | 0 <= k < |front| ensures Before(front[k], ds[n]) {
        assert front[k] in front;
        var j :| 0 <= j < n && ds[..n][j] == front[k];
      }
    }
  }

  lemma BestOfTheRanked(cards: seq<Card>, i: nat)
    requires DistinctPaths(cards) && i < |cards| && |cards| >= 2
    ensures IsBestDiscrete(cards, cards[i], cards[Discretes(cards, i)[0]])
  {
    var ds := At(cards, Discretes(cards, i));
    DiscretesAreTheOthers(cards, i);
    var best := ds[0];
    assert best in ds;
    MemberAt(cards, i, best);
    forall c | c in cards && c != cards[i] && c != best ensures Beats(best, c) {
      MemberAt(cards, i, c);
      var k :| 0 <= k < |ds| && ds[k] == c;
      assert Before(ds[0], ds[k]);
      RankIsBeating(best, c);
    }
  }

  /** The list by cards: who leads, the integrated card behind a discrete leader, and the rest by rank. */
  ghost predicate Lists(cs: seq<Card>, cards: seq<Card>, mode: Mode, ig: Card, best: Card) {
    && cs != []
    && cs[0] == (
         match mode
         case Igpu => ig
         case Dgpu => best
         case Auto => if Lit(best) then best else ig
         case Off => ig)
    && (cs[0] != ig ==> |cs| >= 2 && cs[1] == ig)
    && InOrder(cs, if cs[0] == ig then 1 else 2)
    && NoRepeats(cs)
    && forall c :: c in cs <==>
         c in cards && (mode == Auto || c == ig || Lit(c) || (mode == Dgpu && c == best))
  }

  lemma ListedCardsList(cards: seq<Card>, mode: Mode, i: nat)
    requires DistinctPaths(cards) && i < |cards| && |cards| >= 2 && mode != Off
    ensures Lists(At(cards, Listed(cards, mode, i)), cards, mode, cards[i], cards[Discretes(cards, i)[0]])
  {
    hide Listed, Discretes, Kept;
    var ds := At(cards, Discretes(cards, i));
    var ig, best := cards[i], ds[0];
    var primary := PrimaryCard(ig, best, mode);
    var rest := Kept(ds, primary, mode == Auto);
    ListedAt(cards, mode, i);
    DiscretesAreTheOthers(cards, i);
    KeptIsRanked(ds, primary, mode == Auto);
    assert best in ds;
    forall c ensures c in ds <==> c in cards && c != ig { MemberAt(cards, i, c); }
    RankedInOrder(rest);
    AssembledLists(cards, mode, ig, best, ds, rest);
  }

  lemma RankedInOrder(cs: seq<Card>)
    requires Ranked(cs)
    ensures InOrder(cs, 0) && NoRepeats(cs)
  {
    forall j, k | 0 <= j < k < |cs| ensures Beats(cs[j], cs[k]) && cs[j] != cs[k] {
      RankIsBeating(cs[j], cs[k]);
      BeforeStrictTotal(cs[j], cs[k]);
    }
  }

  lemma AssembledLists(cards: seq<Card>, mode: Mode, ig: Card, best: Card, ds: seq<Card>, rest: seq<Card>)
    requires ig in cards && best in ds && mode != Off && forall c :: c in ds <==> c in cards && c != ig
    requires InOrder(rest, 0) && NoRepeats(rest)
    requires forall c :: c in rest <==> c in ds && c != PrimaryCard(ig, best, mode) && (mode == Auto || Lit(c))
    ensures var primary := PrimaryCard(ig, best, mode);
      Lists([primary] + (if ig != primary then [ig] else []) + rest, cards, mode, ig, best)
  {
    hide Beats, DistinctPaths;
    var primary := PrimaryCard(ig, best, mode);
    var head := [primary] + if ig != primary then [ig] else [];
    var cs := head + rest;
    assert forall c :: c in head <==> c == primary || c == ig;
    assert forall k | |head| <= k < |cs| :: cs[k] == rest[k - |head|] && cs[k] in rest;
    forall j, k | |head| <= j < k < |cs| ensures Beats(cs[j], cs[k]) {
      assert Beats(rest[j - |head|], rest[k - |head|]);
    }
  }

  function Word(source: Source): string {
    match source
    case FromOverride => "override"
    case FromProfile => "profile"
    case FromPlatform => "platform"
    case FromDefault => "default"
  }

  function ReasonWord(mode: Mode, source: Source, best: Card): string {
    match mode
    case Auto => if Lit(best) then "dgpu-has-display" else "dgpu-idle-listed"
    case Igpu => Word(source) + "-igpu"
    case Dgpu => Word(source) + "-dgpu"
    case Off => "override-off"
  }

  /** Every list there is, down to its text: the leader of the mode, the integrated card behind a discrete
      leader, then the others the mode calls for, best first; and the reason in its very word. */
  lemma ListIsExactly(snap: Snapshot, mode: Mode, source: Source) returns (ig: Card, best: Card, cs: seq<Card>)
    requires DistinctPaths(snap.cards) && Desired(snap, mode, source).0.Some?
    ensures IsIntegrated(snap.cards, ig) && IsBestDiscrete(snap.cards, ig, best)
    ensures Lists(cs, snap.cards, mode, ig, best)
    ensures var (list, reason) := Desired(snap, mode, source);
      && |list.value| == |cs| && (forall k | 0 <= k < |cs| :: list.value[k] == "/dev/dri/" + cs[k].node)
      && reason == ReasonWord(mode, source, best)
  {
    hide Listed, Discretes, IntegratedCard, IsIntegrated, Lists, IsBestDiscrete, DistinctPaths;
    var cards := snap.cards;
    var i := IntegratedCard(cards).value;
    ig, best, cs := cards[i], cards[Discretes(cards, i)[0]], At(cards, Listed(cards, mode, i));
    IntegratedIsIntegrated(cards);
    BestOfTheRanked(cards, i);
    ListedCardsList(cards, mode, i);
    SourcesInWords(source);
  }

  lemma SourcesInWords(source: Source)
    ensures SourceWord(source) == Word(source)
  {
  }

  /** Some output could light up. */
  ghost predicate CanShow(snap: Snapshot) {
    exists c :: c in snap.cards && (c.external > 0 || (!snap.lidClosed && c.edp > 0))
  }

  /** Why there is no list, in the order in which the reasons are looked at. */
  lemma RefusalsInWords(snap: Snapshot, mode: Mode, source: Source)
    requires DistinctPaths(snap.cards)
    ensures var answer := Desired(snap, mode, source);
      if mode == Off then answer == (None, "override-off")
      else if |snap.cards| < 2 then answer == (None, "no-multi-gpu")
      else if snap.nonPciDisplay then answer == (None, "non-pci-display-present")
      else if !exists c :: IsIntegrated(snap.cards, c) then answer == (None, "ambiguous-integrated")
      else if !CanShow(snap) then answer == (None, "bailed-transient")
      else answer.0.Some?
  {
    hide Choice, IntegratedCard, IsIntegrated, DistinctPaths;
    var found := IntegratedCard(snap.cards);
    ListedExactlyWhen(snap, mode, source);
    ChoiceInWords(snap, mode, source, found);
    FoundExactlyWhen(snap.cards);
  }

  lemma FoundExactlyWhen(cards: seq<Card>)
    requires DistinctPaths(cards)
    ensures IntegratedCard(cards).Some? <==> exists c :: IsIntegrated(cards, c)
  {
    hide IntegratedCard, IsIntegrated, DistinctPaths;
    if IntegratedCard(cards).Some? {
      IntegratedIsIntegrated(cards);
    } else if c :| IsIntegrated(cards, c) {
      IsIntegratedMember(cards, c);
      var i: nat :| i < |cards| && cards[i] == c;
      IntegratedIsFound(cards, i);
    }
  }

  lemma ChoiceInWords(snap: Snapshot, mode: Mode, source: Source, found: Option<nat>)
    requires found.Some? ==> found.value < |snap.cards|
    ensures var answer := Choice(snap, mode, source, found);
      if mode == Off then answer == (None, "override-off")
      else if |snap.cards| < 2 then answer == (None, "no-multi-gpu")
      else if snap.nonPciDisplay then answer == (None, "non-pci-display-present")
      else if found.None? then answer == (None, "ambiguous-integrated")
      else answer.0.Some? || answer == (None, "bailed-transient")
  {
    hide Listed, Discretes, Usable, AnyExternal, Nodes, Reason;
  }

  lemma IsIntegratedMember(cards: seq<Card>, c: Card)
    requires IsIntegrated(cards, c)
    ensures c in cards
  {
  }
}
