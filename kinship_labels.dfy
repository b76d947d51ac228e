/**
 * Kinship labels: path normalisation (a `U,D` pair through a different
 * node becomes a sibling hop `S`), the "Great-" and cousin helpers, the
 * gender table and the ordered chain of shape checks that turns a
 * normalised step sequence into a label.
 */
module KinshipLabels {
  import opened Wrappers
  import opened Family
  import opened Strings

  /** U: to a parent, D: to a child, H: to a spouse, S: a sibling hop made by normalisation. */
  datatype Step = U | D | H | S

  function Repeat(x: Step, n: nat): (r: seq<Step>)
    ensures |r| == n && forall k :: 0 <= k < n ==> r[k] == x
  {
    seq(n, _ => x)
  }

  predicate AllAre(s: seq<Step>, x: Step)
  {
    forall k :: 0 <= k < |s| ==> s[k] == x
  }

  function Count(s: seq<Step>, x: Step): nat
  {
    if s == [] then 0 else (if s[0] == x then 1 else 0) + Count(s[1..], x)
  }

  // ---------------------------------------------------------------------
  // Path normalisation

  /** `pathNodes[i]`; `None` stands for the `undefined` read past the end. */
  function NodeAt(nodes: seq<Id>, i: nat): Option<Id>
  {
    if i < |nodes| then Some(nodes[i]) else None
  }

  /** A `U` then `D` at `i` whose outer nodes differ: the pair is a sibling hop. */
  predicate Hop(steps: seq<Step>, nodes: seq<Id>, i: nat)
  {
    i + 1 < |steps| && steps[i] == U && steps[i + 1] == D && NodeAt(nodes, i) != NodeAt(nodes, i + 2)
  }

  /** The scan of `normalizePathViaSiblings` from index `i` on. */
  function Scan(steps: seq<Step>, nodes: seq<Id>, i: nat): seq<Step>
    decreases |steps| - i
  {
    if i >= |steps| then []
    else if Hop(steps, nodes, i) then
      [S] + Scan(steps, nodes, i + 2)
    else
      [steps[i]] + Scan(steps, nodes, i + 1)
  }

  /** The normalised form of a path: short paths are kept, longer ones scanned. */
  function Normalized(steps: seq<Step>, nodes: seq<Id>): (r: seq<Step>)
    ensures |r| == 0 <==> |steps| == 0
  {
    if |steps| <= 1 then steps else Scan(steps, nodes, 0)
  }

  /** The scan from `i` on, appended to what has been pushed so far: the loop's view of `Scan`. */
  function ScanFrom(steps: seq<Step>, nodes: seq<Id>, i: nat, acc: seq<Step>): seq<Step>
    decreases |steps| - i
  {
    if i >= |steps| then acc
    else if Hop(steps, nodes, i) then ScanFrom(steps, nodes, i + 2, acc + [S])
    else ScanFrom(steps, nodes, i + 1, acc + [steps[i]])
  }

  lemma {:induction false} ScanFromScan(steps: seq<Step>, nodes: seq<Id>, i: nat, acc: seq<Step>)
    ensures ScanFrom(steps, nodes, i, acc) == acc + Scan(steps, nodes, i)
    decreases |steps| - i
  {
    if i < |steps| {
      var x, j := if Hop(steps, nodes, i) then S else steps[i], if Hop(steps, nodes, i) then i + 2 else i + 1;
      assert ScanFrom(steps, nodes, i, acc) == ScanFrom(steps, nodes, j, acc + [x]);
      assert Scan(steps, nodes, i) == [x] + Scan(steps, nodes, j);
      ScanFromScan(steps, nodes, j, acc + [x]);
      assert (acc + [x]) + Scan(steps, nodes, j) == acc + ([x] + Scan(steps, nodes, j));
    }
  }

  /** `normalizePathViaSiblings`: the `while` loop over `i`, pushing into `normalized`. */
  method NormalizePathViaSiblings(pathSteps: seq<Step>, pathNodes: seq<Id>) returns (normalized: seq<Step>)
    ensures normalized == Normalized(pathSteps, pathNodes)
  {
    if |pathSteps| <= 1 {
      return pathSteps;
    }
    normalized := [];
    var i := 0;
    while i < |pathSteps|
      invariant i <= |pathSteps|
      invariant ScanFrom(pathSteps, pathNodes, i, normalized) == ScanFrom(pathSteps, pathNodes, 0, [])
    {
      if Hop(pathSteps, pathNodes, i) {
        normalized := normalized + [S];
        i := i + 2;
      } else {
        normalized := normalized + [pathSteps[i]];
        i := i + 1;
      }
    }
    ScanFromScan(pathSteps, pathNodes, 0, []);
  }

  /** The collapse without the node guard: every `U,D` pair, left to right, becomes `S`. */
  function Collapse(steps: seq<Step>): (r: seq<Step>)
    ensures |r| == 0 <==> |steps| == 0
  {
    if |steps| >= 2 && steps[0] == U && steps[1] == D then [S] + Collapse(steps[2..])
    else if steps == [] then []
    else [steps[0]] + Collapse(steps[1..])
  }

  lemma {:induction false} ScanCollapse(steps: seq<Step>, nodes: seq<Id>, i: nat)
    requires NoDup(nodes) && |nodes| == |steps| + 1 && i <= |steps|
    ensures Scan(steps, nodes, i) == Collapse(steps[i..])
    decreases |steps| - i
  {
    if i < |steps| {
      var t := steps[i..];
      if i + 1 < |steps| && steps[i] == U && steps[i + 1] == D {
        assert NodeAt(nodes, i) != NodeAt(nodes, i + 2);
        assert t[2..] == steps[i + 2..];
        ScanCollapse(steps, nodes, i + 2);
      } else {
        assert t[1..] == steps[i + 1..];
        ScanCollapse(steps, nodes, i + 1);
      }
    }
  }

  /**
   * On a path whose nodes are pairwise distinct (every path the traversal
   * builds), the node guard always holds: each `U,D` pair is a sibling hop.
   */
  lemma NormalizedDistinctPath(steps: seq<Step>, nodes: seq<Id>)
    requires NoDup(nodes) && |nodes| == |steps| + 1
    ensures Normalized(steps, nodes) == Collapse(steps)
  {
    if |steps| > 1 {
      ScanCollapse(steps, nodes, 0);
      assert steps[0..] == steps;
    } else if |steps| == 1 {
      assert Collapse(steps) == [steps[0]] + Collapse(steps[1..]);
    }
  }

  lemma {:induction false} ScanLength(steps: seq<Step>, nodes: seq<Id>, i: nat)
    requires i <= |steps|
    ensures |Scan(steps, nodes, i)| + Count(Scan(steps, nodes, i), S) == |steps| - i + Count(steps[i..], S)
    decreases |steps| - i
  {
    if i < |steps| {
      var t := steps[i..];
      assert t[1..] == steps[i + 1..];
      if Hop(steps, nodes, i) {
        assert t[1..][1..] == steps[i + 2..];
        ScanLength(steps, nodes, i + 2);
      } else {
        ScanLength(steps, nodes, i + 1);
      }
    }
  }

  /** Each `S` made by normalisation replaces exactly two steps. */
  lemma NormalizedLength(steps: seq<Step>, nodes: seq<Id>)
    ensures |Normalized(steps, nodes)| == |steps| - (Count(Normalized(steps, nodes), S) - Count(steps, S))
  {
    if |steps| > 1 {
      ScanLength(steps, nodes, 0);
      assert steps[0..] == steps;
    }
  }

  // ---------------------------------------------------------------------
  // Label helpers

  /** `"Great-".repeat(n)`. */
  function Greats(n: nat): (r: string)
    ensures |r| == 6 * n
  {
    if n == 0 then "" else "Great-" + Greats(n - 1)
  }

  lemma {:induction false} GreatsAt(n: nat, p: nat)
    requires p < 6 * n
    ensures Greats(n)[p] == "Great-"[p % 6]
  {
    if p >= 6 {
      GreatsAt(n - 1, p - 6);
      assert (p - 6) % 6 == p % 6;
    }
  }

  /** A word that cannot start inside a run of "Great-": all four nouns that get a prefix. */
  predicate ClearOfGreats(w: string)
  {
    |w| >= 3 && w[0] !in "reat-" && (w[0] == 'G' ==> w[2] != 'e')
  }

  lemma NoOccurrenceInGreats(n: nat, x: string, w: string)
    requires ClearOfGreats(w)
    ensures forall j :: 0 <= j < |Greats(n)| ==> !OccursAt(Greats(n) + x, w, j)
  {
    var s := Greats(n) + x;
    forall j | 0 <= j < |Greats(n)| ensures !OccursAt(s, w, j) {
      GreatsAt(n, j);
      if j % 6 == 0 {
        GreatsAt(n, j + 2);
        assert s[j] == 'G' && s[j + 2] == 'e';
      } else {
        assert s[j] in "reat-";
      }
      OccursAtChars(s, w, j);
    }
  }

  lemma OccursAtChars(s: string, w: string, j: nat)
    requires |w| >= 3
    ensures OccursAt(s, w, j) ==> s[j] == w[0] && s[j + 2] == w[2]
  {
    if OccursAt(s, w, j) {
      assert s[j..j + |w|][0] == s[j];
      assert s[j..j + |w|][2] == s[j + 2];
    }
  }

  /** `cousinLabel`: the ordinal from the fixed table, "{n}th" past it, and the removal suffix. */
  function CousinLabel(degree: nat, removed: nat): string
  {
    var base := if degree == 1 then "1st Cousin"
                else if degree == 2 then "2nd Cousin"
                else if degree == 3 then "3rd Cousin"
                else NatToString(degree) + "th Cousin";
    if removed == 0 then base else base + " " + NatToString(removed) + "x Removed"
  }

  /** One of the three surface forms, chosen by gender. */
  function Pick(g: Gender, male: string, female: string, neutral: string): string
  {
    match g
    case Male => male
    case Female => female
    case Neutral => neutral
  }

  // The entries of the term table that the "Great-" rule also uses.
  function GrandparentWord(g: Gender): string { Pick(g, "Grandfather", "Grandmother", "Grandparent") }
  function AuntUncleWord(g: Gender): string { Pick(g, "Uncle", "Aunt", "Pibling") }
  function GrandchildWord(g: Gender): string { Pick(g, "Grandson", "Granddaughter", "Grandchild") }
  function GrandNieceWord(g: Gender): string { Pick(g, "Grandnephew", "Grandniece", "Grandnibling") }

  /** The term table of `getGenderedTerm`, built for one gender. */
  function TermMap(g: Gender): map<string, string>
  {
    map[
      "Parent" := Pick(g, "Father", "Mother", "Parent"),
      "Grandparent" := GrandparentWord(g),
      "Sibling" := Pick(g, "Brother", "Sister", "Sibling"),
      "Child" := Pick(g, "Son", "Daughter", "Child"),
      "Grandchild" := GrandchildWord(g),
      "Niece/Nephew" := Pick(g, "Nephew", "Niece", "Nibling"),
      "Grand-niece/nephew" := GrandNieceWord(g),
      "Aunt/Uncle" := AuntUncleWord(g),
      "Great-aunt/uncle" := Pick(g, "Great-Uncle", "Great-Aunt", "Great-Pibling"),
      "Spouse" := Pick(g, "Husband", "Wife", "Spouse"),
      "Parent-in-law" := Pick(g, "Father-in-law", "Mother-in-law", "Parent-in-law"),
      "Sibling-in-law" := Pick(g, "Brother-in-law", "Sister-in-law", "Sibling-in-law"),
      "Child-in-law" := Pick(g, "Son-in-law", "Daughter-in-law", "Child-in-law")
    ]
  }

  /** `map[base] || base`: the table entry, or the base itself when it is not a key or its entry is empty. */
  function Lookup(base: string, g: Gender): string
  {
    var m := TermMap(g);
    if base in m && m[base] != "" then m[base] else base
  }

  /** The base nouns the "Great-" rule looks for, in the order it tries them. */
  const BaseNouns: seq<string> := ["Grandparent", "Aunt/Uncle", "Grandchild", "Grand-niece/nephew"]

  /** The table entry for `BaseNouns[k]`. */
  function NounWord(k: nat, g: Gender): string
    requires k < |BaseNouns|
  {
    if k == 0 then GrandparentWord(g)
    else if k == 1 then AuntUncleWord(g)
    else if k == 2 then GrandchildWord(g)
    else GrandNieceWord(g)
  }

  /**
   * The noun tests of `getGenderedTerm` that apply once the term starts with
   * "Great-", from the k-th on: the first base noun found is replaced (first
   * occurrence only) by its gendered form; with none, the table lookup.
   */
  function GreatNounFrom(base: string, g: Gender, k: nat): string
    requires k <= |BaseNouns|
    decreases |BaseNouns| - k
  {
    if k == |BaseNouns| then Lookup(base, g)
    else if Contains(base, BaseNouns[k]) then ReplaceFirst(base, BaseNouns[k], NounWord(k, g))
    else GreatNounFrom(base, g, k + 1)
  }

  /** Some base noun from the k-th on occurs in `x`. */
  predicate HasNounFrom(x: string, k: nat)
    requires k <= |BaseNouns|
    decreases |BaseNouns| - k
  {
    k < |BaseNouns| && (Contains(x, BaseNouns[k]) || HasNounFrom(x, k + 1))
  }

  /** `getGenderedTerm`: each of its four "Great-" tests requires the prefix, so they are grouped under it. */
  function GetGenderedTerm(base: string, g: Gender): string
  {
    if StartsWith(base, "Great-") then GreatNounFrom(base, g, 0) else Lookup(base, g)
  }

  /**
   * A base of at least three characters whose first character is not 'G'
   * or whose third is not 'e' cannot start with "Great-", so it is only
   * looked up in the table. The label lemmas use it for their literal bases.
   */
  lemma PlainTerm(base: string, g: Gender)
    requires |base| >= 3 && (base[0] != 'G' || base[2] != 'e')
    ensures GetGenderedTerm(base, g) == Lookup(base, g)
  {
    if |base| >= 6 {
      assert base[..6][0] == base[0] && base[..6][2] == base[2];
    }
  }

  /**
   * A base without the "Great-" prefix that is a key of the table becomes
   * its word for `g`. No word of the table is empty, so the fallback to
   * the base itself is never taken for a key.
   */
  lemma TableTerm(base: string, g: Gender)
    requires !StartsWith(base, "Great-") && base in TermMap(Neutral)
    ensures base in TermMap(g) && GetGenderedTerm(base, g) == TermMap(g)[base]
    ensures GetGenderedTerm(base, g) != ""
  {
    assert TermMap(g).Keys == TermMap(Neutral).Keys;
  }

  /** A base that is neither a key of the table nor starts with "Great-" comes back unchanged, whatever the gender. */
  lemma UnknownBaseKept(base: string, g: Gender)
    requires !StartsWith(base, "Great-") && base !in TermMap(Neutral)
    ensures GetGenderedTerm(base, g) == base
  {
    assert TermMap(g).Keys == TermMap(Neutral).Keys;
  }

  lemma {:induction false} GreatsNounFrom(n: nat, x: string, g: Gender, k: nat)
    requires n >= 1 && k <= |BaseNouns| && HasNounFrom(x, k)
    ensures GreatNounFrom(Greats(n) + x, g, k) == Greats(n) + GreatNounFrom(x, g, k)
    decreases |BaseNouns| - k
  {
    var w := BaseNouns[k];
    assert ClearOfGreats(w);
    NoOccurrenceInGreats(n, x, w);
    ReplaceAfterPrefix(Greats(n), x, w, NounWord(k, g));
    if !Contains(x, w) {
      GreatsNounFrom(n, x, g, k + 1);
    }
  }

  /**
   * A "Great-" run is kept verbatim: only the first embedded base noun of
   * the rest is gendered.
   */
  lemma GreatsGendered(n: nat, x: string, g: Gender)
    requires n >= 1 && HasNounFrom(x, 0)
    ensures GetGenderedTerm(Greats(n) + x, g) == Greats(n) + GreatNounFrom(x, g, 0)
  {
    var s := Greats(n) + x;
    assert s[..6] == "Great-";
    GreatsNounFrom(n, x, g, 0);
  }

  // ---------------------------------------------------------------------
  // Label selection

  /** The index of the first `S`, or -1: `norm.indexOf("S")`. */
  function FirstS(s: seq<Step>): (r: int)
    ensures -1 <= r < |s|
    ensures r >= 0 ==> s[r] == S && forall k :: 0 <= k < r ==> s[k] != S
    ensures r == -1 ==> forall k :: 0 <= k < |s| ==> s[k] != S
  {
    if s == [] then -1
    else if s[0] == S then 0
    else
      var r := FirstS(s[1..]);
      if r == -1 then -1 else r + 1
  }

  /** `customMap["me"] || "Me"`: an empty override counts as absent. */
  function RootLabel(customMap: map<string, string>): string
  {
    if "me" in customMap && customMap["me"] != "" then customMap["me"] else "Me"
  }

  type Pos = n: nat | n >= 1 witness 1

  /** The shape a normalised path is recognised as; the counts are those `labelForPath` computes. */
  datatype Shape =
    | SpouseShape
    | ParentInLawShape(ups: Pos)
    | SiblingInLawShape
    | NieceInLawShape(downs: Pos)
    | AncestorShape(ups: Pos)
    | DescendantShape(downs: Pos)
    | SiblingLineShape(afterSibling: nat)
    | AuntUncleShape(ups: Pos)
    | CousinShape(ups: Pos, downs: Pos)
    | ChildInLawShape
    | OtherShape

  /** The ordered shape checks of `labelForPath`, on a normalised, non-empty sequence. */
  function Classify(norm: seq<Step>): Shape
    requires |norm| >= 1
  {
    if |norm| == 1 && norm[0] == H then SpouseShape
    else if norm[0] == H && AllAre(norm[1..], U) then ParentInLawShape(|norm| - 1)
    else if norm[0] == H && norm[1] == S && |norm| == 2 then SiblingInLawShape
    else if norm[0] == H && norm[1] == S && AllAre(norm[2..], D) then NieceInLawShape(|norm| - 2)
    else if AllAre(norm, U) then AncestorShape(|norm|)
    else if AllAre(norm, D) then DescendantShape(|norm|)
    else if norm[0] == S && AllAre(norm[1..], D) then SiblingLineShape(|norm| - 1)
    else if FirstS(norm) > 0 && AllAre(norm[..FirstS(norm)], U) && AllAre(norm[FirstS(norm) + 1..], D) then
      var ups := FirstS(norm);
      var downs := |norm| - FirstS(norm) - 1;
      if downs == 0 then AuntUncleShape(ups) else CousinShape(ups, downs)
    else if |norm| == 2 && norm[0] == D && norm[1] == H then ChildInLawShape
    else OtherShape
  }

  /** The shapes whose label is a term passed through `getGenderedTerm`. */
  predicate Gendered(shape: Shape)
  {
    !shape.CousinShape? && !shape.OtherShape?
  }

  /** The term `labelForPath` hands to its gendering helper for each shape. */
  function BaseTerm(shape: Shape): string
    requires Gendered(shape)
  {
    match shape
    case SpouseShape => "Spouse"
    case ParentInLawShape(n) =>
      if n == 1 then "Parent-in-law"
      else if n == 2 then "Grandparent-in-law"
      else Greats(n - 2) + "Grandparent-in-law"
    case SiblingInLawShape => "Sibling-in-law"
    case NieceInLawShape(downs) =>
      if downs == 1 then "Niece/Nephew-in-law"
      else Greats(downs - 1) + "Grand-niece/nephew-in-law"
    case AncestorShape(n) =>
      if n == 1 then "Parent"
      else if n == 2 then "Grandparent"
      else Greats(n - 2) + "Grandparent"
    case DescendantShape(n) =>
      if n == 1 then "Child"
      else if n == 2 then "Grandchild"
      else Greats(n - 2) + "Grandchild"
    case SiblingLineShape(downs) =>
      if downs == 0 then "Sibling"
      else if downs == 1 then "Niece/Nephew"
      else Greats(downs - 1) + "Grand-niece/nephew"
    case AuntUncleShape(ups) =>
      if ups == 1 then "Aunt/Uncle"
      else Greats(ups - 1) + "Aunt/Uncle"
    case ChildInLawShape => "Child-in-law"
  }

  /** The text each shape is given, by the target's gender. */
  function ShapeLabel(shape: Shape, g: Gender): string
  {
    match shape
    case CousinShape(ups, downs) =>
      CousinLabel(if ups < downs then ups else downs, if ups < downs then downs - ups else ups - downs)
    case OtherShape => "Relative"
    case _ => GetGenderedTerm(BaseTerm(shape), g)
  }

  function LabelForNormalized(norm: seq<Step>, g: Gender): string
    requires |norm| >= 1
  {
    ShapeLabel(Classify(norm), g)
  }

  /** `labelForPath`: the root's label for the empty path, otherwise the label of the normalised path. */
  function LabelForPath(steps: seq<Step>, nodesInPath: seq<Id>, g: Gender, customMap: map<string, string>): string
  {
    if steps == [] then RootLabel(customMap)
    else LabelForNormalized(Normalized(steps, nodesInPath), g)
  }

  /** The label of a normalised path is the text of the shape it is recognised as. */
  lemma ShapeOfLabel(norm: seq<Step>, g: Gender, shape: Shape)
    requires |norm| >= 1 && Classify(norm) == shape
    ensures LabelForNormalized(norm, g) == ShapeLabel(shape, g)
  {
  }

  // ---------------------------------------------------------------------
  // "Great-" terms: the run is kept, the embedded noun is gendered

  lemma GreatGrandparentTerm(n: nat, g: Gender)
    requires n >= 1
    ensures GetGenderedTerm(Greats(n) + "Grandparent", g) == Greats(n) + GrandparentWord(g)
  {
    ReplaceWhole("Grandparent", GrandparentWord(g));
    GreatsGendered(n, "Grandparent", g);
  }

  lemma GreatGrandparentInLawTerm(n: nat, g: Gender)
    requires n >= 1
    ensures GetGenderedTerm(Greats(n) + "Grandparent-in-law", g) == Greats(n) + (GrandparentWord(g) + "-in-law")
  {
    GrandparentInLawNoun("Grandparent-in-law", g);
    GreatsGendered(n, "Grandparent-in-law", g);
  }

  /** In "Grandparent-in-law" the first noun of the list matches at the start. */
  lemma GrandparentInLawNoun(x: string, g: Gender)
    requires x == "Grandparent-in-law"
    ensures HasNounFrom(x, 0)
    ensures GreatNounFrom(x, g, 0) == GrandparentWord(g) + "-in-law"
  {
    assert x == "Grandparent" + "-in-law";
    ReplaceAtStart("Grandparent", "-in-law", GrandparentWord(g));
  }

  lemma GreatAuntUncleTerm(n: nat, g: Gender)
    requires n >= 1
    ensures GetGenderedTerm(Greats(n) + "Aunt/Uncle", g) == Greats(n) + AuntUncleWord(g)
  {
    var x := "Aunt/Uncle";
    assert !Contains(x, "Grandparent");
    ReplaceWhole(x, AuntUncleWord(g));
    assert GreatNounFrom(x, g, 0) == GreatNounFrom(x, g, 1);
    GreatsGendered(n, x, g);
  }

  lemma GreatGrandchildTerm(n: nat, g: Gender)
    requires n >= 1
    ensures GetGenderedTerm(Greats(n) + "Grandchild", g) == Greats(n) + GrandchildWord(g)
  {
    var x := "Grandchild";
    assert !Contains(x, "Grandparent");
    AbsentFrom(x, "Aunt/Uncle", 0);
    ReplaceWhole(x, GrandchildWord(g));
    assert GreatNounFrom(x, g, 0) == GreatNounFrom(x, g, 1) == GreatNounFrom(x, g, 2);
    GreatsGendered(n, x, g);
  }

  /** "Grand-niece/nephew" holds none of the nouns tried before it. */
  lemma GreatGrandNieceTerm(n: nat, g: Gender)
    requires n >= 1
    ensures GetGenderedTerm(Greats(n) + "Grand-niece/nephew", g) == Greats(n) + GrandNieceWord(g)
  {
    var x := "Grand-niece/nephew";
    assert x[..11][5] == '-';
    assert x[..10][5] == '-';
    AbsentFrom(x, "Grandparent", 1);
    AbsentFrom(x, "Aunt/Uncle", 0);
    AbsentFrom(x, "Grandchild", 1);
    ReplaceWhole(x, GrandNieceWord(g));
    assert GreatNounFrom(x, g, 0) == GreatNounFrom(x, g, 1) == GreatNounFrom(x, g, 2) == GreatNounFrom(x, g, 3);
    GreatsGendered(n, x, g);
  }

  lemma GreatGrandNieceInLawTerm(n: nat, g: Gender)
    requires n >= 1
    ensures GetGenderedTerm(Greats(n) + "Grand-niece/nephew-in-law", g) == Greats(n) + (GrandNieceWord(g) + "-in-law")
  {
    NieceInLawNoun("Grand-niece/nephew-in-law", g);
    GreatsGendered(n, "Grand-niece/nephew-in-law", g);
  }

  /** A term holding only the last base noun has that noun gendered. */
  lemma LastNounOnly(x: string, g: Gender)
    requires !Contains(x, "Grandparent") && !Contains(x, "Aunt/Uncle") && !Contains(x, "Grandchild")
    requires Contains(x, "Grand-niece/nephew")
    ensures HasNounFrom(x, 0)
    ensures GreatNounFrom(x, g, 0) == ReplaceFirst(x, "Grand-niece/nephew", GrandNieceWord(g))
  {
    assert GreatNounFrom(x, g, 0) == GreatNounFrom(x, g, 1) == GreatNounFrom(x, g, 2) == GreatNounFrom(x, g, 3);
  }

  lemma NieceInLawAbsent(x: string)
    requires x == "Grand-niece/nephew-in-law"
    ensures !Contains(x, "Grandparent") && !Contains(x, "Aunt/Uncle") && !Contains(x, "Grandchild")
  {
    NoGrandparentIn(x);
    NieceInLawNoA(x);
    AbsentFrom(x, "Aunt/Uncle", 0);
    NoGrandchildIn(x);
  }

  lemma NieceInLawNoA(x: string)
    requires x == "Grand-niece/nephew-in-law"
    ensures forall j :: 0 <= j < |x| ==> x[j] != 'A'
  {
  }

  /** A text starting with "Grand-" holds "Grandparent" nowhere if no other 'G' follows. */
  lemma NoGrandparentIn(x: string)
    requires StartsWith(x, "Grand-") && forall j :: 1 <= j < |x| ==> x[j] != 'G'
    ensures !Contains(x, "Grandparent")
  {
    assert x[..6][5] == '-';
    if |x| >= 11 {
      assert x[..11][5] == x[..6][5];
    }
    AbsentFrom(x, "Grandparent", 1);
  }

  lemma NoGrandchildIn(x: string)
    requires StartsWith(x, "Grand-") && forall j :: 1 <= j < |x| ==> x[j] != 'G'
    ensures !Contains(x, "Grandchild")
  {
    assert x[..6][5] == '-';
    if |x| >= 10 {
      assert x[..10][5] == x[..6][5];
    }
    AbsentFrom(x, "Grandchild", 1);
  }

  /** In "Grand-niece/nephew-in-law" only the last noun of the list matches. */
  lemma NieceInLawNoun(x: string, g: Gender)
    requires x == "Grand-niece/nephew-in-law"
    ensures HasNounFrom(x, 0)
    ensures GreatNounFrom(x, g, 0) == GrandNieceWord(g) + "-in-law"
  {
    assert x == "Grand-niece/nephew" + "-in-law";
    ReplaceAtStart("Grand-niece/nephew", "-in-law", GrandNieceWord(g));
    NieceInLawAbsent(x);
    LastNounOnly(x, g);
  }

  // ---------------------------------------------------------------------
  // What each shape is labelled

  lemma AncestorShapeOf(n: nat)
    requires n >= 1
    ensures Classify(Repeat(U, n)) == AncestorShape(n)
  {
    var norm := Repeat(U, n);
    assert norm[0] == U && AllAre(norm, U);
  }

  lemma GreatAncestorLabel(n: nat, g: Gender)
    requires n >= 3
    ensures ShapeLabel(AncestorShape(n), g) == Greats(n - 2) + GrandparentWord(g)
  {
    var k := n - 2;
    assert BaseTerm(AncestorShape(n)) == Greats(k) + "Grandparent";
    GreatGrandparentTerm(k, g);
  }

  /** One generation up is the parent. */
  lemma ParentLabel(g: Gender)
    ensures LabelForNormalized([U], g) == Pick(g, "Father", "Mother", "Parent")
  {
    AncestorShapeOf(1);
    assert Repeat(U, 1) == [U];
    ParentTerm(g);
  }

  lemma ParentTerm(g: Gender)
    ensures ShapeLabel(AncestorShape(1), g) == Pick(g, "Father", "Mother", "Parent")
  {
    PlainTerm("Parent", g);
  }

  /** n >= 2 generations up: the grandparent with n - 2 "Great-"s. */
  lemma AncestorLabels(n: nat, g: Gender)
    requires n >= 2
    ensures LabelForNormalized(Repeat(U, n), g) == Greats(n - 2) + GrandparentWord(g)
  {
    AncestorShapeOf(n);
    if n == 2 {
      GrandparentTerm(g);
      assert Greats(0) + GrandparentWord(g) == GrandparentWord(g);
    } else {
      GreatAncestorLabel(n, g);
    }
  }

  lemma GrandparentTerm(g: Gender)
    ensures ShapeLabel(AncestorShape(2), g) == GrandparentWord(g)
  {
    PlainTerm("Grandparent", g);
  }

  lemma DescendantShapeOf(n: nat)
    requires n >= 1
    ensures Classify(Repeat(D, n)) == DescendantShape(n)
  {
    var norm := Repeat(D, n);
    assert norm[0] == D && AllAre(norm, D);
  }

  lemma GreatDescendantLabel(n: nat, g: Gender)
    requires n >= 3
    ensures ShapeLabel(DescendantShape(n), g) == Greats(n - 2) + GrandchildWord(g)
  {
    var k := n - 2;
    assert BaseTerm(DescendantShape(n)) == Greats(k) + "Grandchild";
    GreatGrandchildTerm(k, g);
  }

  /** One generation down is the child. */
  lemma ChildLabel(g: Gender)
    ensures LabelForNormalized([D], g) == Pick(g, "Son", "Daughter", "Child")
  {
    DescendantShapeOf(1);
    assert Repeat(D, 1) == [D];
    ChildTerm(g);
  }

  lemma ChildTerm(g: Gender)
    ensures ShapeLabel(DescendantShape(1), g) == Pick(g, "Son", "Daughter", "Child")
  {
    PlainTerm("Child", g);
  }

  /** n >= 2 generations down: the grandchild with n - 2 "Great-"s. */
  lemma DescendantLabels(n: nat, g: Gender)
    requires n >= 2
    ensures LabelForNormalized(Repeat(D, n), g) == Greats(n - 2) + GrandchildWord(g)
  {
    DescendantShapeOf(n);
    if n == 2 {
      GrandchildTerm(g);
      assert Greats(0) + GrandchildWord(g) == GrandchildWord(g);
    } else {
      GreatDescendantLabel(n, g);
    }
  }

  lemma GrandchildTerm(g: Gender)
    ensures ShapeLabel(DescendantShape(2), g) == GrandchildWord(g)
  {
    PlainTerm("Grandchild", g);
  }

  lemma SiblingLineShapeOf(k: nat)
    ensures Classify([S] + Repeat(D, k)) == SiblingLineShape(k)
  {
    var norm := [S] + Repeat(D, k);
    assert norm[0] == S && norm[1..] == Repeat(D, k);
  }

  /** The sibling, and the sibling's child. */
  lemma SiblingLabel(g: Gender)
    ensures LabelForNormalized([S], g) == Pick(g, "Brother", "Sister", "Sibling")
  {
    SiblingLineShapeOf(0);
    assert [S] + Repeat(D, 0) == [S];
    SiblingTerm(g);
  }

  lemma SiblingTerm(g: Gender)
    ensures ShapeLabel(SiblingLineShape(0), g) == Pick(g, "Brother", "Sister", "Sibling")
  {
    PlainTerm("Sibling", g);
  }

  lemma NieceLabel(g: Gender)
    ensures LabelForNormalized([S, D], g) == Pick(g, "Nephew", "Niece", "Nibling")
  {
    SiblingLineShapeOf(1);
    assert [S] + Repeat(D, 1) == [S, D];
    NieceTerm(g);
  }

  lemma NieceTerm(g: Gender)
    ensures ShapeLabel(SiblingLineShape(1), g) == Pick(g, "Nephew", "Niece", "Nibling")
  {
    PlainTerm("Niece/Nephew", g);
  }

  lemma GreatGrandNieceLabel(downs: nat, g: Gender)
    requires downs >= 2
    ensures ShapeLabel(SiblingLineShape(downs), g) == Greats(downs - 1) + GrandNieceWord(g)
  {
    var k := downs - 1;
    assert BaseTerm(SiblingLineShape(downs)) == Greats(k) + "Grand-niece/nephew";
    GreatGrandNieceTerm(k, g);
  }

  /**
   * A sibling hop followed by downs >= 2 generations down: Grand-niece/nephew
   * with downs - 1 "Great-"s, one more than the direct line below the root gives.
   */
  lemma GrandNieceLabels(downs: nat, g: Gender)
    requires downs >= 2
    ensures LabelForNormalized([S] + Repeat(D, downs), g) == Greats(downs - 1) + GrandNieceWord(g)
  {
    SiblingLineShapeOf(downs);
    GreatGrandNieceLabel(downs, g);
  }

  lemma UpSiblingDownShape(u: nat, d: nat)
    requires u >= 1
    ensures Classify(Repeat(U, u) + [S] + Repeat(D, d)) == if d == 0 then AuntUncleShape(u) else CousinShape(u, d)
  {
    var norm := Repeat(U, u) + [S] + Repeat(D, d);
    assert norm[u] == S && norm[..u] == Repeat(U, u) && norm[u + 1..] == Repeat(D, d);
    assert forall k :: 0 <= k < u ==> norm[k] == U;
    assert FirstS(norm) == u;
    assert norm[0] == U;
  }

  lemma GreatAuntUncleLabel(ups: nat, g: Gender)
    requires ups >= 2
    ensures ShapeLabel(AuntUncleShape(ups), g) == Greats(ups - 1) + AuntUncleWord(g)
  {
    var k := ups - 1;
    assert BaseTerm(AuntUncleShape(ups)) == Greats(k) + "Aunt/Uncle";
    GreatAuntUncleTerm(k, g);
  }

  /** ups generations up, then a sibling hop: Aunt/Uncle with ups - 1 "Great-"s. */
  lemma AuntUncleLabels(ups: nat, g: Gender)
    requires ups >= 1
    ensures LabelForNormalized(Repeat(U, ups) + [S], g) == Greats(ups - 1) + AuntUncleWord(g)
  {
    UpSiblingDownShape(ups, 0);
    assert Repeat(U, ups) + [S] + Repeat(D, 0) == Repeat(U, ups) + [S];
    if ups == 1 {
      AuntUncleTerm(g);
      assert Greats(0) + AuntUncleWord(g) == AuntUncleWord(g);
    } else {
      GreatAuntUncleLabel(ups, g);
    }
  }

  lemma AuntUncleTerm(g: Gender)
    ensures ShapeLabel(AuntUncleShape(1), g) == AuntUncleWord(g)
  {
    PlainTerm("Aunt/Uncle", g);
  }

  /**
   * u up, a sibling hop, d > 0 down: a cousin of degree min(u, d), removed
   * |u - d| times; the label is the same for every gender.
   */
  lemma CousinLabels(u: nat, d: nat, g: Gender)
    requires u >= 1 && d >= 1
    ensures LabelForNormalized(Repeat(U, u) + [S] + Repeat(D, d), g) ==
      CousinLabel(if u < d then u else d, if u < d then d - u else u - d)
  {
    UpSiblingDownShape(u, d);
    ShapeOfLabel(Repeat(U, u) + [S] + Repeat(D, d), g, CousinShape(u, d));
    CousinTerm(u, d, g);
  }

  lemma CousinTerm(u: Pos, d: Pos, g: Gender)
    ensures ShapeLabel(CousinShape(u, d), g) == CousinLabel(if u < d then u else d, if u < d then d - u else u - d)
  {
    var shape := CousinShape(u, d);
    assert shape.ups == u && shape.downs == d;
  }

  lemma SpouseLabel(g: Gender)
    ensures LabelForNormalized([H], g) == Pick(g, "Husband", "Wife", "Spouse")
  {
    assert Classify([H]) == SpouseShape;
    SpouseTerm(g);
  }

  lemma SpouseTerm(g: Gender)
    ensures ShapeLabel(SpouseShape, g) == Pick(g, "Husband", "Wife", "Spouse")
  {
    PlainTerm("Spouse", g);
  }

  lemma ChildInLawLabel(g: Gender)
    ensures LabelForNormalized([D, H], g) == Pick(g, "Son-in-law", "Daughter-in-law", "Child-in-law")
  {
    assert [D, H][0] != U && [D, H][1] != D && FirstS([D, H]) == -1;
    assert Classify([D, H]) == ChildInLawShape;
    ChildInLawTerm(g);
  }

  lemma ChildInLawTerm(g: Gender)
    ensures ShapeLabel(ChildInLawShape, g) == Pick(g, "Son-in-law", "Daughter-in-law", "Child-in-law")
  {
    PlainTerm("Child-in-law", g);
  }

  lemma ParentInLawLabel(g: Gender)
    ensures LabelForNormalized([H, U], g) == Pick(g, "Father-in-law", "Mother-in-law", "Parent-in-law")
  {
    assert AllAre([H, U][1..], U);
    assert Classify([H, U]) == ParentInLawShape(1);
    ParentInLawTerm(g);
  }

  lemma ParentInLawTerm(g: Gender)
    ensures ShapeLabel(ParentInLawShape(1), g) == Pick(g, "Father-in-law", "Mother-in-law", "Parent-in-law")
  {
    PlainTerm("Parent-in-law", g);
  }

  /** "Grandparent-in-law" is not a key of the table and stays ungendered. */
  lemma GrandparentInLawLabel(g: Gender)
    ensures LabelForNormalized([H, U, U], g) == "Grandparent-in-law"
  {
    assert AllAre([H, U, U][1..], U);
    assert Classify([H, U, U]) == ParentInLawShape(2);
    GrandparentInLawTerm(g);
  }

  lemma GrandparentInLawTerm(g: Gender)
    ensures ShapeLabel(ParentInLawShape(2), g) == "Grandparent-in-law"
  {
    PlainTerm("Grandparent-in-law", g);
  }

  lemma SiblingInLawLabel(g: Gender)
    ensures LabelForNormalized([H, S], g) == Pick(g, "Brother-in-law", "Sister-in-law", "Sibling-in-law")
  {
    assert [H, S][1..][0] != U;
    assert Classify([H, S]) == SiblingInLawShape;
    SiblingInLawTerm(g);
  }

  lemma SiblingInLawTerm(g: Gender)
    ensures ShapeLabel(SiblingInLawShape, g) == Pick(g, "Brother-in-law", "Sister-in-law", "Sibling-in-law")
  {
    PlainTerm("Sibling-in-law", g);
  }

  /** "Niece/Nephew-in-law" is not a key of the table either. */
  lemma NieceInLawLabel(g: Gender)
    ensures LabelForNormalized([H, S, D], g) == "Niece/Nephew-in-law"
  {
    assert [H, S, D][1..][0] != U && AllAre([H, S, D][2..], D);
    assert Classify([H, S, D]) == NieceInLawShape(1);
    NieceInLawTerm(g);
  }

  lemma NieceInLawTerm(g: Gender)
    ensures ShapeLabel(NieceInLawShape(1), g) == "Niece/Nephew-in-law"
  {
    PlainTerm("Niece/Nephew-in-law", g);
  }

  lemma GreatGrandparentInLawLabel(n: nat, g: Gender)
    requires n >= 3
    ensures ShapeLabel(ParentInLawShape(n), g) == Greats(n - 2) + (GrandparentWord(g) + "-in-law")
  {
    var k := n - 2;
    assert BaseTerm(ParentInLawShape(n)) == Greats(k) + "Grandparent-in-law";
    GreatGrandparentInLawTerm(k, g);
  }

  /** The spouse's ancestors past the grandparents keep their "Great-"s and gender the embedded noun. */
  lemma GreatParentInLawLabels(n: nat, g: Gender)
    requires n >= 3
    ensures LabelForNormalized([H] + Repeat(U, n), g) == Greats(n - 2) + (GrandparentWord(g) + "-in-law")
  {
    var up := [H] + Repeat(U, n);
    assert up[1..] == Repeat(U, n);
    assert Classify(up) == ParentInLawShape(n);
    GreatGrandparentInLawLabel(n, g);
  }

  lemma GreatGrandNieceInLawLabel(downs: nat, g: Gender)
    requires downs >= 2
    ensures ShapeLabel(NieceInLawShape(downs), g) == Greats(downs - 1) + (GrandNieceWord(g) + "-in-law")
  {
    var k := downs - 1;
    assert BaseTerm(NieceInLawShape(downs)) == Greats(k) + "Grand-niece/nephew-in-law";
    GreatGrandNieceInLawTerm(k, g);
  }

  /** The spouse's sibling's descendants past the first generation, likewise. */
  lemma GreatNieceInLawLabels(downs: nat, g: Gender)
    requires downs >= 2
    ensures LabelForNormalized([H, S] + Repeat(D, downs), g) == Greats(downs - 1) + (GrandNieceWord(g) + "-in-law")
  {
    var down := [H, S] + Repeat(D, downs);
    assert down[1..][0] == S && down[2..] == Repeat(D, downs);
    assert Classify(down) == NieceInLawShape(downs);
    GreatGrandNieceInLawLabel(downs, g);
  }

  /** A spouse hop anywhere after the first step gives "Relative", except a child's spouse. */
  lemma LateSpouseIsRelative(norm: seq<Step>, i: nat, g: Gender)
    requires 1 <= i < |norm| && norm[i] == H && norm != [D, H]
    ensures LabelForNormalized(norm, g) == "Relative"
  {
    LateSpouseShape(norm, i);
    ShapeOfLabel(norm, g, OtherShape);
  }

  /** A run of one step kind holds no spouse hop. */
  lemma SpouseBreaksRun(s: seq<Step>, k: nat, x: Step)
    requires k < |s| && s[k] == H && x != H
    ensures !AllAre(s, x)
  {
  }

  lemma LateSpouseShape(norm: seq<Step>, i: nat)
    requires 1 <= i < |norm| && norm[i] == H && norm != [D, H]
    ensures Classify(norm) == OtherShape
  {
    SpouseBreaksRun(norm, i, U);
    SpouseBreaksRun(norm, i, D);
    if norm[0] == H || norm[0] == S {
      SpouseBreaksRun(norm[1..], i - 1, U);
      SpouseBreaksRun(norm[1..], i - 1, D);
    }
    if norm[0] == H && norm[1] == S {
      SpouseBreaksRun(norm[2..], i - 2, D);
    }
    var f := FirstS(norm);
    if f > 0 && AllAre(norm[..f], U) {
      assert i > f;
      SpouseBreaksRun(norm[f + 1..], i - f - 1, D);
    }
  }

  /** The first three degrees use the fixed ordinals; a removal adds " {n}x Removed". */
  lemma SecondCousinOnceRemoved()
    ensures CousinLabel(2, 1) == "2nd Cousin 1x Removed"
  {
    assert NatToString(1) == "1";
  }

  lemma ThirdCousinTwiceRemoved()
    ensures CousinLabel(3, 2) == "3rd Cousin 2x Removed"
  {
    assert NatToString(2) == "2";
  }

  /**
   * From the fourth degree on, the label starts with the decimal text of
   * the degree followed by "th Cousin"; with no removal nothing follows,
   * otherwise " ", the decimal text of the removal and "x Removed".
   */
  lemma CousinWordingPastThird(degree: nat, removed: nat)
    requires degree > 3
    ensures var text := CousinLabel(degree, removed); var d := NatToString(degree);
            DecimalValue(d) == degree && |text| >= |d| + 9 &&
            text[..|d|] == d && text[|d|..|d| + 9] == "th Cousin"
    ensures removed == 0 ==> |CousinLabel(degree, removed)| == |NatToString(degree)| + 9
    ensures removed > 0 ==>
              var text := CousinLabel(degree, removed); var d := NatToString(degree); var e := NatToString(removed);
              DecimalValue(e) == removed && |text| == |d| + 9 + 1 + |e| + 9 &&
              text[|d| + 9] == ' ' && text[|d| + 10..|d| + 10 + |e|] == e &&
              text[|d| + 10 + |e|..] == "x Removed"
  {
    var text := CousinLabel(degree, removed);
    var d := NatToString(degree);
    if removed == 0 {
      assert text == d + "th Cousin";
      BaseParts(text, d);
    } else {
      var e := NatToString(removed);
      assert text == d + "th Cousin" + " " + e + "x Removed";
      RemovedParts(text, d, e);
    }
  }

  /** Where the parts of a label from the fourth degree on lie. */
  lemma BaseParts(text: string, d: string)
    requires text == d + "th Cousin"
    ensures |text| == |d| + 9 && text[..|d|] == d && text[|d|..|d| + 9] == "th Cousin"
  {
    assert text[..|d|] == d && text[|d|..] == "th Cousin";
  }

  lemma RemovedParts(text: string, d: string, e: string)
    requires text == d + "th Cousin" + " " + e + "x Removed"
    ensures |text| == |d| + 9 + 1 + |e| + 9 && text[..|d|] == d && text[|d|..|d| + 9] == "th Cousin" &&
            text[|d| + 9] == ' ' && text[|d| + 10..|d| + 10 + |e|] == e && text[|d| + 10 + |e|..] == "x Removed"
  {
    var base := d + "th Cousin";
    BaseParts(base, d);
    assert text[..|base|] == base;
    assert text[|d|..|d| + 9] == base[|d|..|d| + 9];
    assert text[|d| + 10..|d| + 10 + |e|] == e;
    assert text[|d| + 10 + |e|..] == "x Removed";
  }

  lemma FourthCousin()
    ensures CousinLabel(4, 0) == "4th Cousin"
  {
    assert NatToString(4) == "4";
    assert CousinLabel(4, 0) == NatToString(4) + "th Cousin";
  }

  lemma EleventhCousin()
    ensures CousinLabel(11, 0) == "11th Cousin"
  {
    EleventhDigits();
    assert CousinLabel(11, 0) == NatToString(11) + "th Cousin";
  }

  lemma EleventhDigits()
    ensures NatToString(11) == "11"
  {
    assert NatToString(1) == "1";
  }

  // ---------------------------------------------------------------------
  // Walks through distinct persons

  /** Along distinct persons every up-then-down pair is a sibling step. */
  lemma DistinctWalkLabel(steps: seq<Step>, path: seq<Id>, g: Gender, customMap: map<string, string>)
    requires NoDup(path) && |path| == |steps| + 1 && steps != []
    ensures LabelForPath(steps, path, g, customMap) == LabelForNormalized(Collapse(steps), g)
  {
    NormalizedDistinctPath(steps, path);
  }

  /** Parent, grandparent, then that grandparent's child: a great-aunt or great-uncle. */
  lemma GreatAuntUncleWalk(path: seq<Id>, g: Gender, customMap: map<string, string>)
    requires NoDup(path) && |path| == 5
    ensures LabelForPath([U, U, U, D], path, g, customMap) == "Great-" + AuntUncleWord(g)
  {
    DistinctWalkLabel([U, U, U, D], path, g, customMap);
    CollapseUpUpUpDown();
    AuntUncleLabels(2, g);
  }

  lemma CollapseUpUpUpDown()
    ensures Collapse([U, U, U, D]) == Repeat(U, 2) + [S]
  {
    assert [U, U, U, D][1..] == [U, U, D] && [U, U, D][1..] == [U, D];
    assert Repeat(U, 2) + [S] == [U, U, S];
  }

  /** Parent, grandparent, aunt or uncle, then their child: a first cousin. */
  lemma FirstCousinWalk(path: seq<Id>, g: Gender, customMap: map<string, string>)
    requires NoDup(path) && |path| == 5
    ensures LabelForPath([U, U, D, D], path, g, customMap) == "1st Cousin"
  {
    DistinctWalkLabel([U, U, D, D], path, g, customMap);
    CollapseUpUpDownDown();
    CousinLabels(1, 1, g);
  }

  lemma CollapseUpUpDownDown()
    ensures Collapse([U, U, D, D]) == Repeat(U, 1) + [S] + Repeat(D, 1)
  {
    assert [U, U, D, D][1..] == [U, D, D] && [U, D, D][2..] == [D];
    assert Repeat(U, 1) + [S] + Repeat(D, 1) == [U, S, D];
  }

  /** Up to a parent and straight back down to the same person is not a sibling step. */
  lemma ReturnWalkKeepsSteps(a: Id, b: Id)
    ensures Normalized([U, D], [a, b, a]) == [U, D]
  {
  }
}
