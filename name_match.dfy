/**
  * The theater and film name test of `filterShowtimes`:
  * `name.match(new RegExp(term.replace(' ', '\\s*'), 'i'))`. Only the first
  * space of the term becomes `\s*` (zero or more white-space characters);
  * every other character matches itself, ignoring ASCII letter case.
  */
module NameMatch {
  import opened Wrappers

  /** The characters `\s` matches in a JavaScript regular expression. */
  predicate IsRegExpSpace(c: char) {
    c == ' ' || c == '\t' || c == '\n' || c == '\U{0B}' || c == '\U{0C}' || c == '\r'
    || c == '\U{A0}' || c == '\U{1680}' || ('\U{2000}' <= c <= '\U{200A}')
    || c == '\U{2028}' || c == '\U{2029}' || c == '\U{202F}' || c == '\U{205F}'
    || c == '\U{3000}' || c == '\U{FEFF}'
  }

  /** Case folding of the 'i' flag, on ASCII letters: lower case to upper case. */
  function Fold(c: char): (f: char)
    ensures 'a' <= c <= 'z' ==> f as int == c as int - 32
    ensures !('a' <= c <= 'z') ==> f == c
  {
    if 'a' <= c <= 'z' then (c as int - 32) as char else c
  }

  /**
    * Folding identifies exactly the two cases of one ASCII letter: two
    * characters fold alike when they are equal or are the lower- and
    * upper-case forms of the same letter.
    */
  lemma FoldIgnoresCase(a: char, b: char)
    ensures Fold(a) == Fold(b) <==>
      a == b || ('a' <= a <= 'z' && b as int == a as int - 32) || ('a' <= b <= 'z' && a as int == b as int - 32)
  {
  }

  /** Two strings that are equal up to ASCII letter case. */
  predicate SameLetters(a: string, b: string) {
    |a| == |b| && forall i :: 0 <= i < |a| ==> Fold(a[i]) == Fold(b[i])
  }

  predicate AllSpace(s: string) {
    forall i :: 0 <= i < |s| ==> IsRegExpSpace(s[i])
  }

  /** The index of the first `c` in `s`, or `|s|` when there is none. */
  function IndexOf(s: string, c: char): (k: nat)
    ensures k <= |s|
    ensures k < |s| ==> s[k] == c
    ensures forall j :: 0 <= j < k ==> s[j] != c
  {
    if s == [] then 0
    else if s[0] == c then 0
    else 1 + IndexOf(s[1..], c)
  }

  /**
    * The regular expression built from a term: `head`, then `\s*` when
    * `flexible`, then `tail`, all other characters literal.
    */
  datatype Pattern = Pattern(head: string, flexible: bool, tail: string)

  /** `term.replace(' ', '\\s*')`: the first space, and only it, becomes `\s*`. */
  function ToPattern(term: string): (p: Pattern)
    ensures !p.flexible ==> p == Pattern(term, false, "") && ' ' !in term
    ensures p.flexible ==> term == p.head + " " + p.tail && ' ' !in p.head
  {
    var k := IndexOf(term, ' ');
    if k == |term| then Pattern(term, false, "")
    else
      assert term == term[..k] + " " + term[k + 1..];
      Pattern(term[..k], true, term[k + 1..])
  }

  /** `lit` occurs at `j` in `name`, ignoring case. */
  predicate LiteralAt(name: string, j: nat, lit: string) {
    j + |lit| <= |name| && SameLetters(name[j..j + |lit|], lit)
  }

  /** `\s*` followed by `lit` matches at `j`: the greedy `\s*` may give back spaces. */
  predicate SpacesThenAt(name: string, j: nat, lit: string)
    requires j <= |name|
    decreases |name| - j
  {
    LiteralAt(name, j, lit) || (j < |name| && IsRegExpSpace(name[j]) && SpacesThenAt(name, j + 1, lit))
  }

  /** The whole pattern matches starting at `i`. */
  predicate MatchFrom(name: string, p: Pattern, i: nat)
    requires i <= |name|
  {
    LiteralAt(name, i, p.head) &&
    var j := i + |p.head|;
    if p.flexible then SpacesThenAt(name, j, p.tail) else LiteralAt(name, j, p.tail)
  }

  /** `String.prototype.match` tries every start position from `i` on. */
  predicate SearchFrom(name: string, p: Pattern, i: nat)
    requires i <= |name|
    decreases |name| - i
  {
    MatchFrom(name, p, i) || (i < |name| && SearchFrom(name, p, i + 1))
  }

  /**
    * `name.match(new RegExp(term.replace(' ', '\\s*'), 'i'))` is not null:
    * exactly when the term, its first space widened to any run of white
    * space, occurs somewhere in the name, ignoring letter case.
    */
  predicate RegExpMatches(name: string, term: string)
    ensures RegExpMatches(name, term) <==> Occurs(name, ToPattern(term))
  {
    SearchFromIff(name, ToPattern(term), 0);
    SearchFrom(name, ToPattern(term), 0)
  }

  // An independent, declarative reading of the same test.

  /** `w` white-space characters at `j`, then `lit` (ignoring case). */
  predicate GapThen(name: string, j: int, w: int, lit: string) {
    0 <= j && 0 <= w && j + w + |lit| <= |name|
    && AllSpace(name[j..j + w]) && SameLetters(name[j + w..j + w + |lit|], lit)
  }

  /** The pattern occurs at `i` with `w` white-space characters standing for `\s*`. */
  predicate OccursAt(name: string, p: Pattern, i: int, w: int) {
    0 <= i && i + |p.head| <= |name| && SameLetters(name[i..i + |p.head|], p.head)
    && (p.flexible || w == 0) && GapThen(name, i + |p.head|, w, p.tail)
  }

  ghost predicate Occurs(name: string, p: Pattern) {
    exists i, w :: OccursAt(name, p, i, w)
  }

  /** A match of `\s*` followed by `lit` at `j` has a gap of white space of some width. */
  lemma {:induction false} GapOfSpacesThenAt(name: string, j: nat, lit: string) returns (w: nat)
    requires j <= |name| && SpacesThenAt(name, j, lit)
    ensures GapThen(name, j, w, lit)
    decreases |name| - j
  {
    if LiteralAt(name, j, lit) {
      assert name[j..j] == [];
      w := 0;
    } else {
      var v := GapOfSpacesThenAt(name, j + 1, lit);
      w := v + 1;
      var gap := name[j..j + w];
      assert gap == [name[j]] + name[j + 1..j + 1 + v];
      forall k | 0 <= k < |gap|
        ensures IsRegExpSpace(gap[k])
      {
        if k > 0 {
          assert gap[k] == name[j + 1..j + 1 + v][k - 1];
        }
      }
      assert name[j + w..j + w + |lit|] == name[j + 1 + v..j + 1 + v + |lit|];
    }
  }

  /** Every gap of white space followed by `lit` is found by the backtracking `\s*`. */
  lemma {:induction false} SpacesThenAtOfGap(name: string, j: nat, w: nat, lit: string)
    requires GapThen(name, j, w, lit)
    ensures SpacesThenAt(name, j, lit)
    decreases w
  {
    if w == 0 {
      assert LiteralAt(name, j, lit);
    } else {
      var gap := name[j..j + w];
      assert IsRegExpSpace(gap[0]);
      var rest := name[j + 1..j + 1 + (w - 1)];
      forall k | 0 <= k < |rest|
        ensures IsRegExpSpace(rest[k])
      {
        assert rest[k] == gap[k + 1];
      }
      assert GapThen(name, j + 1, w - 1, lit);
      SpacesThenAtOfGap(name, j + 1, w - 1, lit);
    }
  }

  /** The backtracking `\s*` finds exactly the gaps of white space before `lit`. */
  lemma SpacesThenAtIff(name: string, j: nat, lit: string)
    requires j <= |name|
    ensures SpacesThenAt(name, j, lit) <==> exists w :: GapThen(name, j, w, lit)
  {
    if SpacesThenAt(name, j, lit) {
      var w := GapOfSpacesThenAt(name, j, lit);
    }
    if exists w :: GapThen(name, j, w, lit) {
      var w :| GapThen(name, j, w, lit);
      SpacesThenAtOfGap(name, j, w, lit);
    }
  }

  /** Matching at one start position is the declarative occurrence at that position. */
  lemma MatchFromIff(name: string, p: Pattern, i: nat)
    requires i <= |name|
    ensures MatchFrom(name, p, i) <==> exists w :: OccursAt(name, p, i, w)
  {
    var j := i + |p.head|;
    if LiteralAt(name, i, p.head) {
      if p.flexible {
        SpacesThenAtIff(name, j, p.tail);
        if MatchFrom(name, p, i) {
          var w :| GapThen(name, j, w, p.tail);
          assert OccursAt(name, p, i, w);
        }
      } else {
        if MatchFrom(name, p, i) {
          assert name[j..j + 0] == [];
          assert GapThen(name, j, 0, p.tail);
          assert OccursAt(name, p, i, 0);
        }
        if exists w :: OccursAt(name, p, i, w) {
          var w :| OccursAt(name, p, i, w);
          assert w == 0;
        }
      }
    }
  }

  /** Trying every start position from `i` on finds an occurrence exactly when there is one. */
  lemma {:induction false} SearchFromIff(name: string, p: Pattern, i: nat)
    requires i <= |name|
    ensures SearchFrom(name, p, i) <==> exists k, w :: i <= k && OccursAt(name, p, k, w)
    decreases |name| - i
  {
    MatchFromIff(name, p, i);
    if i < |name| {
      SearchFromIff(name, p, i + 1);
    }
    if exists k, w :: i <= k && OccursAt(name, p, k, w) {
      var k, w :| i <= k && OccursAt(name, p, k, w);
      if k == i {
        assert MatchFrom(name, p, i);
      } else {
        assert i + 1 <= k;
      }
    }
  }

  /**
    * Only the first space of the term is widened: every later space must
    * stand in the name as exactly one space character.
    */
  lemma LaterSpacesAreLiteral(name: string, term: string, i: int, w: int, k: int)
    requires OccursAt(name, ToPattern(term), i, w)
    requires 0 <= k < |ToPattern(term).tail| && ToPattern(term).tail[k] == ' '
    ensures name[i + |ToPattern(term).head| + w + k] == ' '
  {
    var p := ToPattern(term);
    var j := i + |p.head| + w;
    assert name[j..j + |p.tail|][k] == name[j + k];
    assert Fold(name[j + k]) == ' ';
  }

  /** "lake line" becomes the pattern `lake\s*line`. */
  lemma LakeLinePattern()
    ensures ToPattern("lake line") == Pattern("lake", true, "line")
  {
    var t := "lake line";
    assert t[0] == 'l' && t[1] == 'a' && t[2] == 'k' && t[3] == 'e' && t[4] == ' ';
    assert t[..4] == "lake" && t[5..] == "line";
    assert IndexOf(t, ' ') == 4;
  }

  /** The term "lake line" finds any name containing "Lakeline": case is ignored and the space may match nothing. */
  lemma LakelineExample(before: string, after: string)
    ensures RegExpMatches(before + "Lakeline" + after, "lake line")
  {
    var name := before + "Lakeline" + after;
    var i := |before|;
    var p := Pattern("lake", true, "line");
    LakeLinePattern();
    assert name[i..i + 4] == "Lake";
    assert name[i + 4..i + 8] == "line";
    assert name[i + 4..i + 4] == [];
    assert SameLetters("Lake", "lake");
    assert OccursAt(name, p, i, 0);
  }

  /** A name typed exactly as listed, in any letter case, is always found. */
  lemma ExactNameMatches(name: string)
    ensures RegExpMatches(name, name)
  {
    var p := ToPattern(name);
    if p.flexible {
      var h := |p.head|;
      assert name[h..h + 1] == " ";
      assert name[h + 1..h + 1 + |p.tail|] == p.tail;
      assert OccursAt(name, p, 0, 1);
    } else {
      assert name[0..|name|] == name;
      assert name[|name|..|name|] == [];
      assert OccursAt(name, p, 0, 0);
    }
  }

  /**
    * The first space of a term matches any run of white space, including
    * none: "guardians of the galaxy" finds "Guardians  of the Galaxy".
    */
  lemma FirstSpaceWidens(head: string, tail: string, before: string, gap: string, after: string)
    requires ' ' !in head
    requires AllSpace(gap)
    ensures RegExpMatches(before + head + gap + tail + after, head + " " + tail)
  {
    var term := head + " " + tail;
    var name := before + head + gap + tail + after;
    var k := IndexOf(term, ' ');
    assert term[|head|] == ' ';
    assert k == |head|;
    assert term[..k] == head && term[k + 1..] == tail;
    var p := ToPattern(term);
    assert p == Pattern(head, true, tail);
    var i, w := |before|, |gap|;
    assert name[i..i + |head|] == head;
    assert name[i + |head|..i + |head| + w] == gap;
    assert name[i + |head| + w..i + |head| + w + |tail|] == tail;
    assert OccursAt(name, p, i, w);
  }
}
