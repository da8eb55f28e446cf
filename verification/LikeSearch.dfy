/**
 * Literal search: escapeLike of app/repository/user_repository.go against a
 * matcher for SQL's LIKE with backslash as the escape character, and the ILIKE
 * predicates of app/repository/db/users.sql.go.
 */
module LikeSearch {
  import opened Wrappers

  // ---- SQL LIKE --------------------------------------------------------------------

  datatype Atom = AnyRun | AnyOne | Exactly(c: char)

  /** The atoms of a pattern; None for a pattern that ends in a bare escape character, which is an error. */
  function ParsePattern(p: string): Option<seq<Atom>> {
    if p == "" then Some([])
    else if p[0] == '\\' then
      if |p| == 1 then None else Prepend(Exactly(p[1]), ParsePattern(p[2..]))
    else if p[0] == '%' then Prepend(AnyRun, ParsePattern(p[1..]))
    else if p[0] == '_' then Prepend(AnyOne, ParsePattern(p[1..]))
    else Prepend(Exactly(p[0]), ParsePattern(p[1..]))
  }

  function Prepend(a: Atom, rest: Option<seq<Atom>>): Option<seq<Atom>> {
    if rest.Some? then Some([a] + rest.value) else None
  }

  predicate Matches(atoms: seq<Atom>, s: string)
    decreases |atoms| + |s|
  {
    if atoms == [] then s == ""
    else match atoms[0]
      case AnyRun => Matches(atoms[1..], s) || (s != "" && Matches(atoms, s[1..]))
      case AnyOne => s != "" && Matches(atoms[1..], s[1..])
      case Exactly(c) => s != "" && s[0] == c && Matches(atoms[1..], s[1..])
  }

  predicate Like(s: string, pattern: string) {
    ParsePattern(pattern).Some? && Matches(ParsePattern(pattern).value, s)
  }

  // ---- The source's escaping -------------------------------------------------------

  /** strings.ReplaceAll for a non-empty needle: left to right, without overlaps. */
  function ReplaceAll(s: string, needle: string, repl: string): string
    requires needle != ""
  {
    if s == "" then ""
    else if needle <= s then repl + ReplaceAll(s[|needle|..], needle, repl)
    else [s[0]] + ReplaceAll(s[1..], needle, repl)
  }

  function EscapeLike(input: string): string {
    var backslashes := ReplaceAll(input, "\\", "\\\\");
    var percents := ReplaceAll(backslashes, "%", "\\%");
    ReplaceAll(percents, "_", "\\_")
  }

  predicate IsMeta(c: char) {
    c == '\\' || c == '%' || c == '_'
  }

  /** Each wildcard and each backslash gets a backslash in front; nothing else changes. */
  function EscapeEach(s: string): string {
    if s == "" then "" else (if IsMeta(s[0]) then ['\\', s[0]] else [s[0]]) + EscapeEach(s[1..])
  }

  lemma {:induction false} ReplaceDistributes(a: string, b: string, c: char, repl: string)
    ensures ReplaceAll(a + b, [c], repl) == ReplaceAll(a, [c], repl) + ReplaceAll(b, [c], repl)
  {
    if a == "" {
      assert a + b == b;
    } else {
      assert (a + b)[1..] == a[1..] + b;
      ReplaceDistributes(a[1..], b, c, repl);
      assert (a + b)[0] == a[0] && ([c] <= a + b <==> a[0] == c) && ([c] <= a <==> a[0] == c);
    }
  }

  lemma ReplaceOne(d: char, c: char, repl: string)
    ensures ReplaceAll([d], [c], repl) == if d == c then repl else [d]
  {
    assert [c] <= [d] <==> c == d;
    assert [d][1..] == "";
  }

  lemma ReplaceTwo(d: char, e: char, c: char, repl: string)
    ensures ReplaceAll([d, e], [c], repl) == (if d == c then repl else [d]) + (if e == c then repl else [e])
  {
    assert [d, e] == [d] + [e];
    ReplaceDistributes([d], [e], c, repl);
    ReplaceOne(d, c, repl);
    ReplaceOne(e, c, repl);
  }

  /** The three passes are one pass: later passes leave the backslashes of earlier ones alone. */
  lemma {:induction false} ThreePassesAreOne(s: string)
    ensures EscapeLike(s) == EscapeEach(s)
  {
    if s != "" {
      var d, rest := s[0], s[1..];
      assert s == [d] + rest;
      var one := ReplaceAll([d], "\\", "\\\\");
      var two := ReplaceAll(one, "%", "\\%");
      ReplaceDistributes([d], rest, '\\', "\\\\");
      ReplaceDistributes(one, ReplaceAll(rest, "\\", "\\\\"), '%', "\\%");
      ReplaceDistributes(two, ReplaceAll(ReplaceAll(rest, "\\", "\\\\"), "%", "\\%"), '_', "\\_");
      ReplaceOne(d, '\\', "\\\\");
      ReplaceOne(d, '%', "\\%");
      ReplaceOne(d, '_', "\\_");
      ReplaceTwo('\\', '\\', '%', "\\%");
      ReplaceTwo('\\', '\\', '_', "\\_");
      ReplaceTwo('\\', '%', '_', "\\_");
      ThreePassesAreOne(rest);
    }
  }

  // ---- Escaped text matches itself ---------------------------------------------------

  function Exacts(q: string): seq<Atom> {
    seq(|q|, i requires 0 <= i < |q| => Exactly(q[i]))
  }

  lemma EscapedHeadParses(c: char, rest: string)
    requires ParsePattern(rest).Some?
    ensures ParsePattern((if IsMeta(c) then ['\\', c] else [c]) + rest) == Some([Exactly(c)] + ParsePattern(rest).value)
  {
    var p := (if IsMeta(c) then ['\\', c] else [c]) + rest;
    if IsMeta(c) {
      assert p[0] == '\\' && p[1] == c && p[2..] == rest;
    } else {
      assert p[0] == c && p[1..] == rest;
    }
  }

  lemma {:induction false} EscapedParses(q: string, tail: string)
    requires ParsePattern(tail).Some?
    ensures ParsePattern(EscapeEach(q) + tail) == Some(Exacts(q) + ParsePattern(tail).value)
  {
    var atoms := ParsePattern(tail).value;
    if q == "" {
      assert EscapeEach(q) + tail == tail;
      assert Exacts(q) + atoms == atoms;
    } else {
      var rest := EscapeEach(q[1..]) + tail;
      EscapedParses(q[1..], tail);
      EscapedHeadParses(q[0], rest);
      assert EscapeEach(q) + tail == (if IsMeta(q[0]) then ['\\', q[0]] else [q[0]]) + rest;
      assert Exacts(q) + atoms == [Exactly(q[0])] + (Exacts(q[1..]) + atoms);
    }
  }

  predicate OccursAt(s: string, q: string, k: int) {
    0 <= k <= |s| - |q| && s[k..k + |q|] == q
  }

  /** q is a substring of s. */
  ghost predicate Contains(s: string, q: string) {
    exists k :: OccursAt(s, q, k)
  }

  lemma {:induction false} RunMatchesAll(s: string)
    ensures Matches([AnyRun], s)
  {
    if s != "" {
      RunMatchesAll(s[1..]);
    }
  }

  lemma {:induction false} PrefixMatches(q: string, s: string)
    ensures Matches(Exacts(q) + [AnyRun], s) <==> OccursAt(s, q, 0)
  {
    var atoms := Exacts(q) + [AnyRun];
    if q == "" {
      assert atoms == [AnyRun];
      RunMatchesAll(s);
    } else {
      assert atoms[1..] == Exacts(q[1..]) + [AnyRun];
      if s != "" {
        PrefixMatches(q[1..], s[1..]);
        assert |q| <= |s| ==> s[0..|q|] == [s[0]] + s[1..][0..|q| - 1];
        assert q == [q[0]] + q[1..];
      }
    }
  }

  lemma OccursLater(s: string, q: string, k: nat)
    requires s != ""
    ensures OccursAt(s[1..], q, k) <==> OccursAt(s, q, k + 1)
  {
    if k + 1 <= |s| - |q| {
      assert s[1..][k..k + |q|] == s[k + 1..k + 1 + |q|];
    }
  }

  lemma {:induction false} SubstringMatches(q: string, s: string)
    ensures Matches([AnyRun] + Exacts(q) + [AnyRun], s) <==> Contains(s, q)
  {
    var atoms := [AnyRun] + Exacts(q) + [AnyRun];
    assert atoms[1..] == Exacts(q) + [AnyRun];
    PrefixMatches(q, s);
    if s != "" {
      SubstringMatches(q, s[1..]);
      if k :| OccursAt(s[1..], q, k) {
        OccursLater(s, q, k);
      }
      if k :| OccursAt(s, q, k) && k != 0 {
        OccursLater(s, q, k - 1);
      }
    }
  }

  lemma PercentParses()
    ensures ParsePattern("%") == Some([AnyRun])
  {
    assert "%"[1..] == "" && [AnyRun] + [] == [AnyRun];
    assert ParsePattern("") == Some([]);
  }

  /** '%' || escapeLike(q) || '%' is a well-formed pattern: any run, the very characters of q, any run. */
  lemma PatternIsLiteral(q: string)
    ensures ParsePattern("%" + EscapeLike(q) + "%") == Some([AnyRun] + Exacts(q) + [AnyRun])
  {
    ThreePassesAreOne(q);
    PercentParses();
    EscapedParses(q, "%");
    var p := "%" + EscapeLike(q) + "%";
    assert p[1..] == EscapeLike(q) + "%";
    assert [AnyRun] + (Exacts(q) + [AnyRun]) == [AnyRun] + Exacts(q) + [AnyRun];
  }

  // ---- Case folding --------------------------------------------------------------------

  function FoldAll(fold: char -> string, s: string): string {
    if s == "" then "" else fold(s[0]) + FoldAll(fold, s[1..])
  }

  /** Case folding leaves the three characters special to LIKE alone and never produces them. */
  ghost predicate SparesMetas(fold: char -> string) {
    && fold('\\') == "\\" && fold('%') == "%" && fold('_') == "_"
    && forall c :: !IsMeta(c) ==> forall d :: d in fold(c) ==> !IsMeta(d)
  }

  /** ILIKE: LIKE on the folded text and the folded pattern. */
  predicate ILike(fold: char -> string, s: string, pattern: string) {
    Like(FoldAll(fold, s), FoldAll(fold, pattern))
  }

  lemma {:induction false} FoldDistributes(fold: char -> string, a: string, b: string)
    ensures FoldAll(fold, a + b) == FoldAll(fold, a) + FoldAll(fold, b)
  {
    if a == "" {
      assert a + b == b;
    } else {
      assert (a + b)[1..] == a[1..] + b;
      FoldDistributes(fold, a[1..], b);
    }
  }

  lemma {:induction false} EscapeDistributes(a: string, b: string)
    ensures EscapeEach(a + b) == EscapeEach(a) + EscapeEach(b)
  {
    if a == "" {
      assert a + b == b;
    } else {
      assert (a + b)[1..] == a[1..] + b;
      EscapeDistributes(a[1..], b);
    }
  }

  lemma {:induction false} PlainIsUnescaped(s: string)
    requires forall d :: d in s ==> !IsMeta(d)
    ensures EscapeEach(s) == s
  {
    if s != "" {
      PlainIsUnescaped(s[1..]);
    }
  }

  lemma {:induction false} FoldingCommutesWithEscaping(fold: char -> string, q: string)
    requires SparesMetas(fold)
    ensures FoldAll(fold, EscapeEach(q)) == EscapeEach(FoldAll(fold, q))
  {
    if q != "" {
      var head := if IsMeta(q[0]) then ['\\', q[0]] else [q[0]];
      FoldDistributes(fold, head, EscapeEach(q[1..]));
      FoldingCommutesWithEscaping(fold, q[1..]);
      EscapeDistributes(fold(q[0]), FoldAll(fold, q[1..]));
      if IsMeta(q[0]) {
        assert head[1..] == [q[0]] && [q[0]][1..] == "";
        assert FoldAll(fold, head) == fold('\\') + (fold(q[0]) + "");
        assert fold(q[0]) == [q[0]] && EscapeEach([q[0]]) == ['\\', q[0]];
      } else {
        assert head[1..] == "";
        PlainIsUnescaped(fold(q[0]));
      }
    }
  }

  /** For every text and every query, the search finds exactly the texts that contain the query, up to case folding. */
  lemma SearchIsLiteral(fold: char -> string, s: string, q: string)
    requires SparesMetas(fold)
    ensures ILike(fold, s, "%" + EscapeLike(q) + "%") <==> Contains(FoldAll(fold, s), FoldAll(fold, q))
  {
    var fq := FoldAll(fold, q);
    ThreePassesAreOne(q);
    ThreePassesAreOne(fq);
    FoldingCommutesWithEscaping(fold, q);
    assert "%"[1..] == "" && FoldAll(fold, "%") == "%";
    FoldDistributes(fold, "%" + EscapeLike(q), "%");
    FoldDistributes(fold, "%", EscapeLike(q));
    PatternIsLiteral(fq);
    SubstringMatches(fq, FoldAll(fold, s));
  }

  // ---- Search without escaping -----------------------------------------------------------

  ghost predicate Plain(q: string) {
    forall c <- q :: !IsMeta(c)
  }

  /** A text that the pattern q || '%' matches: runs spelled as nothing, single characters as '%'. */
  function Spell(q: string): string {
    if q == "" then ""
    else if q[0] == '\\' then (if |q| == 1 then "%" else [q[1]] + Spell(q[2..]))
    else if q[0] == '%' then Spell(q[1..])
    else if q[0] == '_' then "%" + Spell(q[1..])
    else [q[0]] + Spell(q[1..])
  }

  lemma HeadMatches(a: Atom, rest: seq<Atom>, c: char, s: string)
    requires Matches(rest, s) && (a == AnyOne || a == Exactly(c))
    ensures Matches([a] + rest, [c] + s)
  {
    assert ([a] + rest)[1..] == rest && ([c] + s)[1..] == s;
  }

  lemma RunMatches(rest: seq<Atom>, s: string)
    requires Matches(rest, s)
    ensures Matches([AnyRun] + rest, s)
  {
    assert ([AnyRun] + rest)[1..] == rest;
  }

  /** q || '%' always parses, and matches its spelling. */
  lemma {:induction false} SpellingMatches(q: string)
    ensures ParsePattern(q + "%").Some? && Matches(ParsePattern(q + "%").value, Spell(q))
  {
    var p := q + "%";
    if q == "" {
      assert p == "%";
      PercentParses();
      RunMatchesAll("");
    } else if q[0] == '\\' {
      if |q| == 1 {
        assert p[2..] == "" && p[1] == '%' && ParsePattern("") == Some([]);
        HeadMatches(Exactly('%'), [], '%', "");
      } else {
        assert p[1] == q[1] && p[2..] == q[2..] + "%";
        SpellingMatches(q[2..]);
        HeadMatches(Exactly(q[1]), ParsePattern(q[2..] + "%").value, q[1], Spell(q[2..]));
      }
    } else {
      assert p[1..] == q[1..] + "%";
      SpellingMatches(q[1..]);
      var rest := ParsePattern(q[1..] + "%").value;
      if q[0] == '%' {
        RunMatches(rest, Spell(q[1..]));
      } else {
        HeadMatches(if q[0] == '_' then AnyOne else Exactly(q[0]), rest, Spell(q)[0], Spell(q[1..]));
      }
    }
  }

  /** Only a query without special characters is its own spelling, and no spelling is longer than its query. */
  lemma {:induction false} SpellingDiffers(q: string)
    ensures |Spell(q)| <= |q| && (Spell(q) == q <==> Plain(q))
  {
    if q != "" {
      assert q == [q[0]] + q[1..] && q[0] in q;
      if q[0] == '\\' && |q| > 1 {
        SpellingDiffers(q[2..]);
      } else {
        SpellingDiffers(q[1..]);
        if !IsMeta(q[0]) {
          assert Spell(q)[0] == q[0] && Spell(q)[1..] == Spell(q[1..]);
        }
      }
    }
  }

  lemma TextContainsOnlyItself(s: string, q: string)
    requires |s| <= |q| && Contains(s, q)
    ensures s == q
  {
    var k :| OccursAt(s, q, k);
    assert s[0..|q|] == s;
  }

  lemma SpellingIsFound(q: string)
    ensures Like(Spell(q), "%" + q + "%")
  {
    var p := "%" + q + "%";
    assert p[1..] == q + "%";
    SpellingMatches(q);
    RunMatches(ParsePattern(q + "%").value, Spell(q));
  }

  lemma PlainSearchIsLiteral(q: string, s: string)
    requires Plain(q)
    ensures Like(s, "%" + q + "%") <==> Contains(s, q)
  {
    ThreePassesAreOne(q);
    PlainIsUnescaped(q);
    PatternIsLiteral(q);
    SubstringMatches(q, s);
  }

  /** Without the escaping exactly the queries without special characters are searched for literally. */
  lemma UnescapedIsLiteralIff(q: string)
    ensures (forall s :: Like(s, "%" + q + "%") <==> Contains(s, q)) <==> Plain(q)
  {
    if Plain(q) {
      forall s ensures Like(s, "%" + q + "%") <==> Contains(s, q) {
        PlainSearchIsLiteral(q, s);
      }
    } else {
      var s := Spell(q);
      SpellingIsFound(q);
      SpellingDiffers(q);
      if Contains(s, q) {
        TextContainsOnlyItself(s, q);
      }
      assert Like(s, "%" + q + "%") && !Contains(s, q);
    }
  }

  /** The query without the characters that folding drops. */
  function Dense(fold: char -> string, q: string): string {
    if q == "" then "" else (if fold(q[0]) == "" then "" else [q[0]]) + Dense(fold, q[1..])
  }

  lemma FoldsHead(fold: char -> string, c: char, s: string)
    ensures FoldAll(fold, [c] + s) == fold(c) + FoldAll(fold, s)
  {
    assert ([c] + s)[0] == c && ([c] + s)[1..] == s;
  }

  lemma {:induction false} DenseFoldsAlike(fold: char -> string, q: string)
    ensures FoldAll(fold, Dense(fold, q)) == FoldAll(fold, q)
    ensures forall c <- Dense(fold, q) :: fold(c) != ""
  {
    if q != "" {
      DenseFoldsAlike(fold, q[1..]);
      if fold(q[0]) == "" {
        assert Dense(fold, q) == Dense(fold, q[1..]);
        assert FoldAll(fold, q) == FoldAll(fold, q[1..]);
      } else {
        FoldsHead(fold, q[0], Dense(fold, q[1..]));
      }
    }
  }

  lemma {:induction false} PlainHeadSpells(plain: string, q: string)
    requires Plain(plain)
    ensures Spell(plain + q) == plain + Spell(q)
  {
    if plain == "" {
      assert plain + q == q;
    } else {
      assert plain[0] in plain && (plain + q)[1..] == plain[1..] + q;
      PlainHeadSpells(plain[1..], q);
      assert plain == [plain[0]] + plain[1..];
    }
  }

  lemma EscapedHeadSpells(fold: char -> string, c: char, q: string)
    requires SparesMetas(fold) && fold(c) != ""
    ensures Spell("\\" + fold(c) + q) == fold(c) + Spell(q)
  {
    var p := "\\" + fold(c) + q;
    var head := fold(c);
    if IsMeta(c) {
      assert head == [c];
    }
    assert p[0] == '\\' && p[1] == head[0] && p[2..] == head[1..] + q;
    PlainHeadSpells(head[1..], q);
    assert head == [head[0]] + head[1..];
  }

  /** Spelling and folding commute. */
  lemma {:induction false} FoldedSpelling(fold: char -> string, q: string)
    requires SparesMetas(fold) && forall c <- q :: fold(c) != ""
    ensures FoldAll(fold, Spell(q)) == Spell(FoldAll(fold, q))
  {
    if q != "" {
      assert q == [q[0]] + q[1..];
      FoldsHead(fold, q[0], q[1..]);
      if q[0] != '\\' {
        FoldedSpelling(fold, q[1..]);
        HeadSpellingFolds(fold, q[0], q[1..]);
      } else if |q| == 1 {
        FoldsToPercent(fold, "");
      } else {
        assert q[1..] == [q[1]] + q[2..] && q[1] in q;
        FoldsHead(fold, q[1], q[2..]);
        FoldedSpelling(fold, q[2..]);
        EscapedHeadSpells(fold, q[1], FoldAll(fold, q[2..]));
        assert FoldAll(fold, q) == "\\" + fold(q[1]) + FoldAll(fold, q[2..]);
        FoldsHead(fold, q[1], Spell(q[2..]));
      }
    }
  }

  lemma HeadSpellingFolds(fold: char -> string, c: char, q: string)
    requires SparesMetas(fold) && c != '\\' && FoldAll(fold, Spell(q)) == Spell(FoldAll(fold, q))
    ensures FoldAll(fold, Spell([c] + q)) == Spell(fold(c) + FoldAll(fold, q))
  {
    assert ([c] + q)[0] == c && ([c] + q)[1..] == q;
    var rest := FoldAll(fold, q);
    if IsMeta(c) {
      assert (fold(c) + rest)[0] == c && (fold(c) + rest)[1..] == rest;
      FoldsToPercent(fold, Spell(q));
    } else {
      PlainHeadSpells(fold(c), rest);
      FoldsHead(fold, c, Spell(q));
    }
  }

  lemma FoldsToPercent(fold: char -> string, s: string)
    requires SparesMetas(fold)
    ensures FoldAll(fold, "%" + s) == "%" + FoldAll(fold, s)
  {
    assert ("%" + s)[1..] == s;
  }

  lemma {:induction false} FoldingKeepsPlain(fold: char -> string, q: string)
    requires SparesMetas(fold)
    ensures Plain(FoldAll(fold, q)) <==> Plain(q)
  {
    if q != "" {
      FoldingKeepsPlain(fold, q[1..]);
      assert q == [q[0]] + q[1..];
      if IsMeta(q[0]) {
        assert FoldAll(fold, q)[0] == q[0] && q[0] in FoldAll(fold, q);
      } else {
        PlainParts(fold(q[0]), FoldAll(fold, q[1..]));
      }
    }
  }

  lemma PlainParts(a: string, b: string)
    ensures Plain(a + b) <==> Plain(a) && Plain(b)
  {
    assert forall c :: c in a + b <==> c in a || c in b;
  }

  lemma PatternFolds(fold: char -> string, q: string)
    requires SparesMetas(fold)
    ensures FoldAll(fold, "%" + q + "%") == "%" + FoldAll(fold, q) + "%"
  {
    FoldDistributes(fold, "%" + q, "%");
    FoldsToPercent(fold, q);
    FoldsToPercent(fold, "");
    assert "%" + "" == "%";
  }

  /** The same up to case: the word list, which does not escape, searches literally for exactly these queries. */
  lemma UnescapedSearchIsLiteralIff(fold: char -> string, q: string)
    requires SparesMetas(fold)
    ensures (forall s :: ILike(fold, s, "%" + q + "%") <==> Contains(FoldAll(fold, s), FoldAll(fold, q))) <==> Plain(q)
  {
    var fq := FoldAll(fold, q);
    PatternFolds(fold, q);
    FoldingKeepsPlain(fold, q);
    if Plain(q) {
      forall s ensures ILike(fold, s, "%" + q + "%") <==> Contains(FoldAll(fold, s), fq) {
        PlainSearchIsLiteral(fq, FoldAll(fold, s));
      }
    } else {
      var s := Spell(Dense(fold, q));
      DenseFoldsAlike(fold, q);
      FoldedSpelling(fold, Dense(fold, q));
      assert FoldAll(fold, s) == Spell(fq);
      SpellingIsFound(fq);
      SpellingDiffers(fq);
      if Contains(Spell(fq), fq) {
        TextContainsOnlyItself(Spell(fq), fq);
      }
      assert ILike(fold, s, "%" + q + "%") && !Contains(FoldAll(fold, s), fq);
    }
  }

  /** For one: the query "%" would find every text. */
  lemma UnescapedSearchIsNotLiteral()
    ensures Like("abc", "%" + "%" + "%") && !Contains("abc", "%")
  {
    var p := "%%%";
    PercentParses();
    assert p[1..] == "%%" && "%%"[1..] == "%";
    assert [AnyRun] + [AnyRun] == [AnyRun, AnyRun] && [AnyRun] + [AnyRun, AnyRun] == [AnyRun, AnyRun, AnyRun];
    assert ParsePattern("%%") == Some([AnyRun, AnyRun]);
    assert ParsePattern(p) == Some([AnyRun, AnyRun, AnyRun]);
    RunMatchesAll("abc");
    assert [AnyRun, AnyRun, AnyRun][1..] == [AnyRun, AnyRun] && [AnyRun, AnyRun][1..] == [AnyRun];
    assert forall k :: 0 <= k <= 2 ==> "abc"[k..k + 1] == ["abc"[k]];
  }
}
