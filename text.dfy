/** The string operations the classifier relies on, written over characters:
    whitespace stripping and collapsing, ASCII lower-casing, substring search,
    word tokenisation and decimal rendering of naturals. Whitespace is the
    ASCII whitespace of Python's `str.isspace`; letters are ASCII letters. */
module Text {

  /** Tab, line feed, vertical tab, form feed, carriage return, the four
      separator controls 0x1C-0x1F, and the space. */
  predicate IsSpace(c: char) {
    c == ' ' || '\t' <= c <= '\r' || (28 as char) <= c <= (31 as char)
  }

  predicate IsUpper(c: char) {
    'A' <= c <= 'Z'
  }

  function ToLower(c: char): (r: char)
    ensures !IsUpper(r)
    ensures IsSpace(r) <==> IsSpace(c)
    ensures !IsUpper(c) ==> r == c
    ensures IsUpper(c) ==> 'a' <= r <= 'z' && r as int - 'a' as int == c as int - 'A' as int
  {
    if IsUpper(c) then (c as int + 32) as char else c
  }

  /** `str.lower()` restricted to ASCII letters. */
  function LowerAll(s: string): (r: string)
    ensures |r| == |s|
    ensures forall i :: 0 <= i < |s| ==> r[i] == ToLower(s[i])
  {
    if s == [] then [] else [ToLower(s[0])] + LowerAll(s[1..])
  }

  /** Drops the leading whitespace: what remains is a suffix that does not
      start with whitespace, and everything dropped was whitespace. */
  function TrimLeft(s: string): (r: string)
    ensures |r| <= |s| && r == s[|s| - |r|..]
    ensures r == [] || !IsSpace(r[0])
    ensures forall i :: 0 <= i < |s| - |r| ==> IsSpace(s[i])
  {
    if s != [] && IsSpace(s[0]) then TrimLeft(s[1..]) else s
  }

  /** Drops the trailing whitespace: what remains is a prefix that does not
      end with whitespace, and everything dropped was whitespace. */
  function TrimRight(s: string): (r: string)
    ensures |r| <= |s| && r == s[..|r|]
    ensures r == [] || !IsSpace(r[|r| - 1])
    ensures forall i :: |r| <= i < |s| ==> IsSpace(s[i])
  {
    if s != [] && IsSpace(s[|s| - 1]) then TrimRight(s[..|s| - 1]) else s
  }

  /** No whitespace at either end. */
  ghost predicate NoEdgeSpace(s: string) {
    s == [] || (!IsSpace(s[0]) && !IsSpace(s[|s| - 1]))
  }

  /** Every whitespace character is a plain space and is not followed by
      another whitespace character. */
  ghost predicate SingleSpaced(s: string) {
    && (forall i :: 0 <= i < |s| && IsSpace(s[i]) ==> s[i] == ' ')
    && (forall i, j :: 0 <= i && j == i + 1 && j < |s| ==> !(IsSpace(s[i]) && IsSpace(s[j])))
  }

  ghost predicate NoUpper(s: string) {
    forall i :: 0 <= i < |s| ==> !IsUpper(s[i])
  }

  /** The characters of `s` that are not whitespace, in order. */
  function RemoveSpaces(s: string): (r: string)
    ensures forall i :: 0 <= i < |r| ==> !IsSpace(r[i])
  {
    if s == [] then []
    else if IsSpace(s[0]) then RemoveSpaces(s[1..])
    else [s[0]] + RemoveSpaces(s[1..])
  }

  lemma {:induction false} RemoveSpacesAppend(a: string, b: string)
    ensures RemoveSpaces(a + b) == RemoveSpaces(a) + RemoveSpaces(b)
  {
    if a == [] {
      assert a + b == b;
    } else {
      assert (a + b)[1..] == a[1..] + b;
      RemoveSpacesAppend(a[1..], b);
    }
  }

  lemma {:induction false} RemoveSpacesOfLower(s: string)
    ensures RemoveSpaces(LowerAll(s)) == LowerAll(RemoveSpaces(s))
  {
    if s != [] {
      assert LowerAll(s)[1..] == LowerAll(s[1..]);
      RemoveSpacesOfLower(s[1..]);
    }
  }

  /** `str.strip()`. */
  function Strip(s: string): (r: string)
    ensures NoEdgeSpace(r)
  {
    TrimRight(TrimLeft(s))
  }

  lemma {:induction false} TrimLeftKeepsContent(s: string)
    ensures RemoveSpaces(TrimLeft(s)) == RemoveSpaces(s)
  {
    if s != [] && IsSpace(s[0]) {
      TrimLeftKeepsContent(s[1..]);
    }
  }

  lemma {:induction false} TrimRightKeepsContent(s: string)
    ensures RemoveSpaces(TrimRight(s)) == RemoveSpaces(s)
  {
    if s != [] && IsSpace(s[|s| - 1]) {
      var init := s[..|s| - 1];
      TrimRightKeepsContent(init);
      assert s == init + [s[|s| - 1]];
      RemoveSpacesAppend(init, [s[|s| - 1]]);
      assert RemoveSpaces([s[|s| - 1]]) == [];
    }
  }

  /** Stripping removes whitespace only. */
  lemma StripKeepsContent(s: string)
    ensures RemoveSpaces(Strip(s)) == RemoveSpaces(s)
  {
    TrimLeftKeepsContent(s);
    TrimRightKeepsContent(TrimLeft(s));
  }

  /** `re.sub(r"\s+", " ", s)`: every maximal run of whitespace becomes a
      single space, and nothing else changes. */
  function Collapse(s: string): string
    decreases |s|
  {
    if s == [] then []
    else if IsSpace(s[0]) then [' '] + Collapse(TrimLeft(s[1..]))
    else [s[0]] + Collapse(s[1..])
  }

  /** The first character survives Collapse, a whitespace one as a space. */
  lemma CollapseHead(s: string)
    requires s != []
    ensures Collapse(s) != []
    ensures Collapse(s)[0] == if IsSpace(s[0]) then ' ' else s[0]
  {
  }

  /** Putting a character in front of a single-spaced string keeps it
      single-spaced when the character is not whitespace, or is a space
      followed by a non-whitespace character. */
  lemma SingleSpacedCons(c: char, t: string)
    requires SingleSpaced(t)
    requires IsSpace(c) ==> c == ' ' && (t == [] || !IsSpace(t[0]))
    ensures SingleSpaced([c] + t)
  {
    var r := [c] + t;
    forall i | 0 <= i < |r| && IsSpace(r[i])
      ensures r[i] == ' ' && (i + 1 < |r| ==> !IsSpace(r[i + 1]))
    {
      if i > 0 {
        assert r[i] == t[i - 1];
        if i + 1 < |r| {
          assert r[i + 1] == t[i];
        }
      }
    }
  }

  /** Collapse leaves no whitespace but single spaces. */
  lemma {:induction false} CollapseIsSingleSpaced(s: string)
    ensures SingleSpaced(Collapse(s))
    decreases |s|
  {
    if s != [] {
      if IsSpace(s[0]) {
        var tail := TrimLeft(s[1..]);
        CollapseIsSingleSpaced(tail);
        if tail != [] {
          CollapseHead(tail);
        }
        SingleSpacedCons(' ', Collapse(tail));
      } else {
        CollapseIsSingleSpaced(s[1..]);
        SingleSpacedCons(s[0], Collapse(s[1..]));
      }
    }
  }

  /** Collapse keeps a final non-whitespace character last. */
  lemma {:induction false} CollapseKeepsLast(s: string)
    requires s != [] && !IsSpace(s[|s| - 1])
    ensures Collapse(s) != [] && !IsSpace(Collapse(s)[|Collapse(s)| - 1])
    decreases |s|
  {
    if IsSpace(s[0]) {
      var tail := TrimLeft(s[1..]);
      assert tail != [] && tail[|tail| - 1] == s[|s| - 1];
      CollapseKeepsLast(tail);
      var c := Collapse(tail);
      assert Collapse(s) == [' '] + c;
      assert Collapse(s)[|Collapse(s)| - 1] == c[|c| - 1];
    } else if |s| > 1 {
      assert s[1..][|s[1..]| - 1] == s[|s| - 1];
      CollapseKeepsLast(s[1..]);
      var c := Collapse(s[1..]);
      assert Collapse(s) == [s[0]] + c;
      assert Collapse(s)[|Collapse(s)| - 1] == c[|c| - 1];
    }
  }

  /** Collapse adds no whitespace at either end of a string that has none. */
  lemma CollapseKeepsEdges(s: string)
    requires NoEdgeSpace(s)
    ensures NoEdgeSpace(Collapse(s))
  {
    if s != [] {
      CollapseHead(s);
      CollapseKeepsLast(s);
    }
  }

  /** Collapse introduces no upper-case letter. */
  lemma NoUpperSuffix(s: string, k: nat)
    requires NoUpper(s) && k <= |s|
    ensures NoUpper(s[k..])
  {
    forall i | 0 <= i < |s| - k ensures !IsUpper(s[k..][i]) {
      assert s[k..][i] == s[k + i];
    }
  }

  lemma NoUpperCons(c: char, t: string)
    requires !IsUpper(c) && NoUpper(t)
    ensures NoUpper([c] + t)
  {
    forall i | 0 <= i < |t| + 1 ensures !IsUpper(([c] + t)[i]) {
      if i > 0 {
        assert ([c] + t)[i] == t[i - 1];
      }
    }
  }

  lemma {:induction false} CollapseKeepsNoUpper(s: string)
    requires NoUpper(s)
    ensures NoUpper(Collapse(s))
    decreases |s|
  {
    if s != [] {
      NoUpperSuffix(s, 1);
      if IsSpace(s[0]) {
        var tail := TrimLeft(s[1..]);
        NoUpperSuffix(s[1..], |s[1..]| - |tail|);
        CollapseKeepsNoUpper(tail);
        NoUpperCons(' ', Collapse(tail));
      } else {
        CollapseKeepsNoUpper(s[1..]);
        NoUpperCons(s[0], Collapse(s[1..]));
      }
    }
  }

  /** Collapse changes whitespace only. */
  lemma {:induction false} CollapseKeepsContent(s: string)
    ensures RemoveSpaces(Collapse(s)) == RemoveSpaces(s)
    decreases |s|
  {
    if s != [] {
      if IsSpace(s[0]) {
        var rest := TrimLeft(s[1..]);
        CollapseKeepsContent(rest);
        TrimLeftKeepsContent(s[1..]);
        assert ([' '] + Collapse(rest))[1..] == Collapse(rest);
      } else {
        CollapseKeepsContent(s[1..]);
        assert ([s[0]] + Collapse(s[1..]))[1..] == Collapse(s[1..]);
      }
    }
  }

  /** Dropping the first character keeps a text single-spaced; a leading
      space is a plain one with no whitespace after it. */
  lemma SingleSpacedTail(s: string)
    requires s != [] && SingleSpaced(s)
    ensures SingleSpaced(s[1..])
    ensures IsSpace(s[0]) ==> s[0] == ' ' && TrimLeft(s[1..]) == s[1..]
  {
    forall i | 0 <= i < |s[1..]| && IsSpace(s[1..][i])
      ensures s[1..][i] == ' ' && (i + 1 < |s[1..]| ==> !IsSpace(s[1..][i + 1]))
    {
      assert s[1..][i] == s[i + 1];
    }
  }

  /** A single-spaced string is left alone by Collapse. */
  lemma {:induction false} CollapseOfSingleSpaced(s: string)
    requires SingleSpaced(s)
    ensures Collapse(s) == s
  {
    if s != [] {
      SingleSpacedTail(s);
      CollapseOfSingleSpaced(s[1..]);
    }
  }

  ghost predicate AllSpace(w: string) {
    forall i :: 0 <= i < |w| ==> IsSpace(w[i])
  }

  /** Leading whitespace in front of a non-space start is dropped whole. */
  lemma {:induction false} TrimLeftOfSpaces(w: string, b: string)
    requires AllSpace(w) && (b == [] || !IsSpace(b[0]))
    ensures TrimLeft(w + b) == b
  {
    if w == [] {
      assert w + b == b;
    } else {
      assert (w + b)[1..] == w[1..] + b;
      TrimLeftOfSpaces(w[1..], b);
    }
  }

  /** Trailing whitespace after a non-space end is dropped whole. */
  lemma {:induction false} TrimRightOfSpaces(a: string, w: string)
    requires AllSpace(w) && (a == [] || !IsSpace(a[|a| - 1]))
    ensures TrimRight(a + w) == a
  {
    if w == [] {
      assert a + w == a;
    } else {
      var init := w[..|w| - 1];
      assert (a + w)[..|a + w| - 1] == a + init;
      TrimRightOfSpaces(a, init);
    }
  }

  /** Left trimming stops inside a string that ends with a non-space. */
  lemma {:induction false} TrimLeftAppend(x: string, b: string)
    requires x != [] && !IsSpace(x[|x| - 1])
    ensures TrimLeft(x + b) == TrimLeft(x) + b
  {
    if IsSpace(x[0]) {
      assert (x + b)[1..] == x[1..] + b;
      TrimLeftAppend(x[1..], b);
    }
  }

  /** Right trimming stops inside a string that starts with a non-space. */
  lemma {:induction false} TrimRightAppend(a: string, y: string)
    requires y != [] && !IsSpace(y[0])
    ensures TrimRight(a + y) == a + TrimRight(y)
    decreases |y|
  {
    if IsSpace(y[|y| - 1]) {
      var init := y[..|y| - 1];
      assert (a + y)[..|a + y| - 1] == a + init;
      TrimRightAppend(a, init);
    }
  }

  /** Collapse works piecewise on the two sides of a non-space character. */
  lemma {:induction false} CollapseAppend(a: string, b: string)
    requires a == [] || !IsSpace(a[|a| - 1])
    ensures Collapse(a + b) == Collapse(a) + Collapse(b)
    decreases |a|, 1
  {
    if a == [] {
      assert a + b == b;
    } else if IsSpace(a[0]) {
      CollapseAppendSpace(a, b);
    } else {
      CollapseAppendChar(a, b);
    }
  }

  lemma {:induction false} CollapseAppendSpace(a: string, b: string)
    requires a != [] && IsSpace(a[0]) && !IsSpace(a[|a| - 1])
    ensures Collapse(a + b) == Collapse(a) + Collapse(b)
    decreases |a|, 0
  {
    CollapseSpaceStep(a, b);
    CollapseSpaceHeadAppend(a, b);
    CollapseAppend(TrimLeft(a[1..]), b);
  }

  /** One step of collapsing a leading whitespace run: what is left after
      the run still ends in the same non-space. */
  lemma CollapseSpaceStep(a: string, b: string)
    requires a != [] && IsSpace(a[0]) && !IsSpace(a[|a| - 1])
    ensures var rest := TrimLeft(a[1..]);
      && rest != [] && !IsSpace(rest[|rest| - 1]) && |rest| < |a|
      && Collapse(a) + Collapse(b) == [' '] + (Collapse(rest) + Collapse(b))
  {
    var rest := TrimLeft(a[1..]);
    TrimLeftKeepsLast(a[1..]);
    CollapseSpaceHead(a);
    AppendAssoc([' '], Collapse(rest), Collapse(b));
  }

  /** Trimming the left end of a text that ends in a non-space keeps that
      last character. */
  lemma TrimLeftKeepsLast(x: string)
    requires x != [] && !IsSpace(x[|x| - 1])
    ensures TrimLeft(x) != [] && TrimLeft(x)[|TrimLeft(x)| - 1] == x[|x| - 1]
  {
  }

  /** The leading whitespace run of `a` is collapsed before `b` is reached. */
  lemma CollapseSpaceHeadAppend(a: string, b: string)
    requires a != [] && IsSpace(a[0]) && !IsSpace(a[|a| - 1])
    ensures Collapse(a + b) == [' '] + Collapse(TrimLeft(a[1..]) + b)
  {
    CollapseSpaceHead(a + b);
    assert (a + b)[1..] == a[1..] + b;
    TrimLeftAppend(a[1..], b);
  }

  lemma CollapseSpaceHead(s: string)
    requires s != [] && IsSpace(s[0])
    ensures Collapse(s) == [' '] + Collapse(TrimLeft(s[1..]))
  {
  }

  lemma {:induction false} CollapseAppendChar(a: string, b: string)
    requires a != [] && !IsSpace(a[0]) && !IsSpace(a[|a| - 1])
    ensures Collapse(a + b) == Collapse(a) + Collapse(b)
    decreases |a|, 0
  {
    CollapseCharStep(a, b);
    CollapseAppend(a[1..], b);
  }

  /** One step of collapsing a leading non-space, before and after
      appending `b`. */
  lemma CollapseCharStep(a: string, b: string)
    requires a != [] && !IsSpace(a[0])
    ensures Collapse(a + b) == [a[0]] + Collapse(a[1..] + b)
    ensures Collapse(a) + Collapse(b) == [a[0]] + (Collapse(a[1..]) + Collapse(b))
  {
    assert (a + b)[0] == a[0] && (a + b)[1..] == a[1..] + b;
    AppendAssoc([a[0]], Collapse(a[1..]), Collapse(b));
  }

  /** A whitespace run in front of a non-space start becomes one space. */
  lemma CollapseSpaceRun(w: string, b: string)
    requires w != [] && AllSpace(w) && (b == [] || !IsSpace(b[0]))
    ensures Collapse(w + b) == [' '] + Collapse(b)
  {
    assert (w + b)[0] == w[0];
    assert (w + b)[1..] == w[1..] + b;
    TrimLeftOfSpaces(w[1..], b);
  }

  /** A whitespace run between two non-space characters becomes exactly one
      space, in place. */
  lemma CollapseJoinRight(a: string, w: string, b: string)
    requires a == [] || !IsSpace(a[|a| - 1])
    requires w != [] && AllSpace(w) && (b == [] || !IsSpace(b[0]))
    ensures Collapse(a + (w + b)) == Collapse(a) + ([' '] + Collapse(b))
  {
    CollapseAppend(a, w + b);
    CollapseSpaceRun(w, b);
  }

  lemma AppendAssoc(a: string, w: string, b: string)
    ensures a + w + b == a + (w + b)
  {
  }

  /** A whitespace run between two words collapses to exactly one blank,
      and each side collapses on its own. */
  lemma CollapseJoin(a: string, w: string, b: string)
    requires a == [] || !IsSpace(a[|a| - 1])
    requires w != [] && AllSpace(w) && (b == [] || !IsSpace(b[0]))
    ensures Collapse(a + w + b) == Collapse(a) + [' '] + Collapse(b)
  {
    CollapseJoinRight(a, w, b);
    AppendAssoc(a, w, b);
  }

  lemma {:induction false} LowerAllAppend(a: string, b: string)
    ensures LowerAll(a + b) == LowerAll(a) + LowerAll(b)
  {
    var l, r := LowerAll(a + b), LowerAll(a) + LowerAll(b);
    forall i | 0 <= i < |a + b| ensures l[i] == r[i] {
      if i < |a| {
        assert (a + b)[i] == a[i];
      } else {
        assert (a + b)[i] == b[i - |a|];
      }
    }
    assert l == r;
  }

  lemma LowerAllOfSpaces(w: string)
    requires AllSpace(w)
    ensures LowerAll(w) == w && AllSpace(LowerAll(w))
  {
  }

  /** A text without whitespace has nothing to strip. */
  lemma StripOfWord(x: string)
    requires forall i :: 0 <= i < |x| ==> !IsSpace(x[i])
    ensures Strip(x) == x
  {
    if x != [] {
      assert !IsSpace(x[0]) && !IsSpace(x[|x| - 1]);
    }
  }

  /** Normalising a text without whitespace only lower-cases it. */
  lemma NormalizeOfWord(x: string)
    requires forall i :: 0 <= i < |x| ==> !IsSpace(x[i])
    ensures Normalize(x) == LowerAll(x)
  {
    StripOfWord(x);
    LowerOfWordSingleSpaced(x);
    CollapseOfSingleSpaced(LowerAll(x));
  }

  lemma LowerOfWordSingleSpaced(x: string)
    requires forall i :: 0 <= i < |x| ==> !IsSpace(x[i])
    ensures SingleSpaced(LowerAll(x))
  {
    var l := LowerAll(x);
    assert forall i :: 0 <= i < |l| ==> !IsSpace(l[i]);
  }

  /** Whitespace around a text without edge whitespace is dropped. */
  lemma NormalizeDropsEdges(w1: string, a: string, w2: string)
    requires AllSpace(w1) && AllSpace(w2) && NoEdgeSpace(a)
    ensures Normalize(w1 + a + w2) == Normalize(a)
  {
    if a == [] {
      assert w1 + a + w2 == w1 + w2 + [];
      TrimLeftOfSpaces(w1 + w2, []);
    } else {
      assert w1 + a + w2 == w1 + (a + w2);
      TrimLeftOfSpaces(w1, a + w2);
      TrimRightOfSpaces(a, w2);
      assert TrimLeft(a) == a;
      assert TrimRight(a) == a;
    }
  }

  /** Trimming the right end does not reach past a non-space. */
  lemma TrimRightJoin(x: string, w: string, b: string)
    requires b != [] && !IsSpace(b[0])
    ensures TrimRight(x + (w + b)) == x + (w + TrimRight(b))
  {
    AppendAssoc(x, w, b);
    TrimRightAppend(x + w, b);
    AppendAssoc(x, w, TrimRight(b));
  }

  /** Stripping a text with a non-space at each inner edge trims only the
      outer ends. */
  lemma StripJoin(a: string, w: string, b: string)
    requires a != [] && !IsSpace(a[|a| - 1])
    requires b != [] && !IsSpace(b[0])
    ensures Strip(a + (w + b)) == TrimLeft(a) + (w + TrimRight(b))
  {
    TrimLeftAppend(a, w + b);
    TrimRightJoin(TrimLeft(a), w, b);
  }

  /** Stripping a part whose inner edge is not a space trims only its
      outer end and keeps the inner character. */
  lemma StripOfEdges(a: string, b: string)
    requires a != [] && !IsSpace(a[|a| - 1])
    requires b != [] && !IsSpace(b[0])
    ensures Strip(a) == TrimLeft(a) != [] && TrimLeft(a)[|TrimLeft(a)| - 1] == a[|a| - 1]
    ensures Strip(b) == TrimRight(b) != [] && TrimRight(b)[0] == b[0]
  {
    var la := TrimLeft(a);
    TrimLeftKeepsLast(a);
    assert TrimRight(la) == la;
    assert TrimLeft(b) == b;
  }

  /** Lower-casing leaves a whitespace run in place. */
  lemma LowerJoin(x: string, w: string, y: string)
    requires AllSpace(w)
    ensures LowerAll(x + (w + y)) == LowerAll(x) + (w + LowerAll(y))
  {
    LowerAllAppend(x, w + y);
    LowerAllAppend(w, y);
    LowerAllOfSpaces(w);
  }

  /** The three stages of normalisation applied around a whitespace run. */
  lemma StagesJoin(a: string, w: string, b: string)
    requires a != [] && !IsSpace(a[|a| - 1])
    requires b != [] && !IsSpace(b[0])
    requires w != [] && AllSpace(w)
    ensures Collapse(LowerAll(Strip(a + (w + b))))
            == Collapse(LowerAll(Strip(a))) + ([' '] + Collapse(LowerAll(Strip(b))))
  {
    var la, rb := TrimLeft(a), TrimRight(b);
    StripJoin(a, w, b);
    StripOfEdges(a, b);
    LowerJoin(la, w, rb);
    var lla, lrb := LowerAll(la), LowerAll(rb);
    assert lla[|lla| - 1] == ToLower(la[|la| - 1]);
    assert lrb[0] == ToLower(rb[0]);
    CollapseJoinRight(lla, w, lrb);
  }

  /** A whitespace run between two non-space characters of the message
      becomes exactly one space between the two normalised sides: words are
      kept apart, never glued together. */
  lemma NormalizeJoin(a: string, w: string, b: string)
    requires a != [] && !IsSpace(a[|a| - 1])
    requires b != [] && !IsSpace(b[0])
    requires w != [] && AllSpace(w)
    ensures Normalize(a + w + b) == Normalize(a) + [' '] + Normalize(b)
  {
    AppendAssoc(a, w, b);
    StagesJoin(a, w, b);
  }

  /** The message text the classifier works on: stripped, lower-cased, and
      with whitespace runs collapsed. */
  function Normalize(s: string): string {
    Collapse(LowerAll(Strip(s)))
  }

  /** The normalised text has no whitespace at its ends, only single spaces
      inside and no capitals, and its other characters are the message's,
      lower-cased and in order. */
  lemma NormalizeShape(s: string)
    ensures NoEdgeSpace(Normalize(s))
    ensures SingleSpaced(Normalize(s))
    ensures NoUpper(Normalize(s))
    ensures RemoveSpaces(Normalize(s)) == LowerAll(RemoveSpaces(s))
  {
    var stripped := Strip(s);
    var lowered := LowerAll(stripped);
    StripKeepsContent(s);
    RemoveSpacesOfLower(stripped);
    CollapseIsSingleSpaced(lowered);
    CollapseKeepsEdges(lowered);
    CollapseKeepsNoUpper(lowered);
    CollapseKeepsContent(lowered);
  }

  /** Normalising twice is the same as normalising once. */
  lemma NormalizeIdempotent(s: string)
    ensures Normalize(Normalize(s)) == Normalize(s)
  {
    var n := Normalize(s);
    NormalizeShape(s);
    assert TrimLeft(n) == n;
    assert TrimRight(n) == n;
    assert Strip(n) == n;
    assert LowerAll(n) == n;
    CollapseOfSingleSpaced(n);
  }

  /** Python's `p in t` on strings. */
  function IsSubstring(p: string, t: string): bool
    decreases |t|
  {
    p <= t || (t != [] && IsSubstring(p, t[1..]))
  }

  ghost predicate OccursAt(p: string, t: string, i: nat) {
    i + |p| <= |t| && t[i..i + |p|] == p
  }

  /** An occurrence in the tail is an occurrence one position later. */
  lemma OccursShift(p: string, t: string, i: nat)
    requires t != []
    ensures OccursAt(p, t[1..], i) <==> OccursAt(p, t, i + 1)
  {
    if i + |p| <= |t[1..]| {
      assert t[1..][i..i + |p|] == t[i + 1..i + 1 + |p|];
    }
  }

  /** The recursive search agrees with the positional definition of a substring. */
  lemma {:induction false} IsSubstringIffOccurs(p: string, t: string)
    ensures IsSubstring(p, t) <==> exists i: nat :: OccursAt(p, t, i)
    decreases |t|
  {
    if p <= t {
      assert OccursAt(p, t, 0);
    } else if t != [] {
      IsSubstringIffOccurs(p, t[1..]);
      if IsSubstring(p, t[1..]) {
        var i: nat :| OccursAt(p, t[1..], i);
        OccursShift(p, t, i);
      } else {
        forall i: nat | OccursAt(p, t, i) ensures false {
          if i != 0 {
            OccursShift(p, t, i - 1);
          }
        }
      }
    }
  }

  predicate IsWordChar(c: char) {
    'a' <= c <= 'z' || 'A' <= c <= 'Z' || c == '\''
  }

  ghost predicate IsWord(w: string) {
    w != [] && forall i :: 0 <= i < |w| ==> IsWordChar(w[i])
  }

  /** The length of the longest prefix made of word characters. */
  function WordPrefixLen(s: string): (n: nat)
    ensures n <= |s|
    ensures forall i :: 0 <= i < n ==> IsWordChar(s[i])
    ensures n == |s| || !IsWordChar(s[n])
  {
    if s != [] && IsWordChar(s[0]) then 1 + WordPrefixLen(s[1..]) else 0
  }

  /** `set(re.findall(r"[a-zA-Z']+", s))`: the maximal runs of word characters. */
  function Tokens(s: string): (ts: set<string>)
    ensures forall t :: t in ts ==> IsWord(t)
    decreases |s|
  {
    if s == [] then {}
    else if !IsWordChar(s[0]) then Tokens(s[1..])
    else
      var n := WordPrefixLen(s);
      {s[..n]} + Tokens(s[n..])
  }

  /** `s[i..j]` is a maximal run of word characters: a match of the
      pattern that cannot be extended on either side. */
  ghost predicate RunAt(s: string, i: int, j: int) {
    0 <= i < j <= |s|
    && (forall k :: i <= k < j ==> IsWordChar(s[k]))
    && (i == 0 || !IsWordChar(s[i - 1]))
    && (j == |s| || !IsWordChar(s[j]))
  }

  /** `w` is one of the maximal runs of `s`. */
  ghost predicate IsRunOf(s: string, w: string) {
    exists i, j :: RunAt(s, i, j) && s[i..j] == w
  }

  /** Cutting a string where no run is split keeps each later run in place. */
  lemma RunShift(s: string, k: nat, i: int, j: int)
    requires k <= |s| && i >= 0
    requires k == 0 || !IsWordChar(s[k - 1]) || (k < |s| && !IsWordChar(s[k]))
    ensures RunAt(s[k..], i, j) <==> RunAt(s, i + k, j + k)
    ensures RunAt(s[k..], i, j) ==> s[k..][i..j] == s[i + k..j + k]
  {
    if RunAt(s[k..], i, j) {
      assert forall m :: i + k <= m < j + k ==> s[m] == s[k..][m - k];
    }
    if RunAt(s, i + k, j + k) {
      assert forall m :: i <= m < j ==> s[k..][m] == s[m + k];
    }
  }

  /** A leading non-word character starts no run. */
  lemma RunsAfterNonWord(s: string, w: string)
    requires s != [] && !IsWordChar(s[0])
    ensures IsRunOf(s, w) <==> IsRunOf(s[1..], w)
  {
    if IsRunOf(s[1..], w) {
      var i, j :| RunAt(s[1..], i, j) && s[1..][i..j] == w;
      RunShift(s, 1, i, j);
    }
    if IsRunOf(s, w) {
      var i, j :| RunAt(s, i, j) && s[i..j] == w;
      assert i != 0;
      RunShift(s, 1, i - 1, j - 1);
    }
  }

  /** In a text that starts with a word, the run at 0 is that word and
      every other run starts after it. */
  lemma RunAfterLeadingWord(s: string, i: int, j: int)
    requires s != [] && IsWordChar(s[0]) && RunAt(s, i, j)
    ensures i == 0 ==> j == WordPrefixLen(s)
    ensures i != 0 ==> i > WordPrefixLen(s)
  {
    var n := WordPrefixLen(s);
    if i == 0 {
      if j < n {
        assert false;
      } else if j > n {
        assert false;
      }
    } else if i < n {
      assert false;
    } else if i == n {
      assert false;
    }
  }

  /** A leading word is the first run; the others are the runs after it. */
  lemma RunsAfterWord(s: string, w: string)
    requires s != [] && IsWordChar(s[0])
    ensures IsRunOf(s, w) <==> w == s[..WordPrefixLen(s)] || IsRunOf(s[WordPrefixLen(s)..], w)
  {
    var n := WordPrefixLen(s);
    assert RunAt(s, 0, n);
    if IsRunOf(s[n..], w) {
      var i, j :| RunAt(s[n..], i, j) && s[n..][i..j] == w;
      RunShift(s, n, i, j);
    }
    if IsRunOf(s, w) {
      var i, j :| RunAt(s, i, j) && s[i..j] == w;
      RunAfterLeadingWord(s, i, j);
      if i != 0 {
        RunShift(s, n, i - n, j - n);
      }
    }
  }

  /** The tokens are exactly the maximal runs of word characters, which is
      what `findall` returns for a pattern of one repeated character class. */
  lemma {:induction false} TokensAreMaximalRuns(s: string, w: string)
    ensures w in Tokens(s) <==> IsRunOf(s, w)
    decreases |s|
  {
    if s == [] {
    } else if !IsWordChar(s[0]) {
      TokensAreMaximalRuns(s[1..], w);
      RunsAfterNonWord(s, w);
    } else {
      TokensAreMaximalRuns(s[WordPrefixLen(s)..], w);
      RunsAfterWord(s, w);
    }
  }

  /** A word prefix stops at the first non-word character. */
  lemma {:induction false} WordPrefixLenAppend(a: string, b: string)
    requires b != [] && !IsWordChar(b[0])
    ensures WordPrefixLen(a + b) == WordPrefixLen(a)
  {
    if a == [] {
      assert a + b == b;
    } else if IsWordChar(a[0]) {
      assert (a + b)[1..] == a[1..] + b;
      WordPrefixLenAppend(a[1..], b);
    }
  }

  /** A non-word character separates the tokens on its two sides. */
  lemma {:induction false} TokensSplit(a: string, x: char, b: string)
    requires !IsWordChar(x)
    ensures Tokens(a + [x] + b) == Tokens(a) + Tokens(b)
    decreases |a|
  {
    var s := a + [x] + b;
    if a == [] {
      assert s == [x] + b && s[1..] == b;
    } else if !IsWordChar(a[0]) {
      assert s[1..] == a[1..] + [x] + b;
      TokensSplit(a[1..], x, b);
    } else {
      assert s == a + ([x] + b);
      WordPrefixLenAppend(a, [x] + b);
      var n := WordPrefixLen(a);
      assert s[..n] == a[..n];
      assert s[n..] == a[n..] + [x] + b;
      TokensSplit(a[n..], x, b);
    }
  }

  /** A single word is its own only token. */
  lemma {:induction false} TokensOfWord(w: string)
    requires IsWord(w)
    ensures Tokens(w) == {w}
  {
    assert w[..|w|] == w;
    assert WordPrefixLen(w) == |w|;
  }

  /** A word inserted at a space boundary anywhere in a text adds itself
      to the token set and nothing else; when it already occurs as a
      token, the set is unchanged. */
  lemma RepeatedWordAddsNoToken(a: string, w: string, b: string)
    requires IsWord(w)
    ensures Tokens(a + [' '] + w + [' '] + b) == Tokens(a + [' '] + b) + {w}
    ensures w in Tokens(a + [' '] + b) ==> Tokens(a + [' '] + w + [' '] + b) == Tokens(a + [' '] + b)
  {
    TokensSplit(a + [' '] + w, ' ', b);
    TokensSplit(a, ' ', w);
    TokensOfWord(w);
    TokensSplit(a, ' ', b);
  }

  function DigitChar(d: nat): char
    requires d < 10
  {
    ('0' as int + d) as char
  }

  /** `str(n)` for a natural number. */
  function NatToString(n: nat): (r: string)
    ensures r != []
    ensures forall i :: 0 <= i < |r| ==> '0' <= r[i] <= '9'
    ensures r[0] == '0' ==> n == 0 && |r| == 1
  {
    if n < 10 then [DigitChar(n)] else NatToString(n / 10) + [DigitChar(n % 10)]
  }

  /** Reads a string of decimal digits back as a number. */
  function DigitsValue(s: string): nat
    requires forall i :: 0 <= i < |s| ==> '0' <= s[i] <= '9'
  {
    if s == [] then 0
    else DigitsValue(s[..|s| - 1]) * 10 + (s[|s| - 1] as int - '0' as int)
  }

  /** The decimal rendering is faithful: reading it back gives the number. */
  lemma {:induction false} NatToStringRoundTrip(n: nat)
    ensures DigitsValue(NatToString(n)) == n
  {
    var r := NatToString(n);
    if n < 10 {
      assert r[..|r| - 1] == [];
    } else {
      assert r[..|r| - 1] == NatToString(n / 10);
      NatToStringRoundTrip(n / 10);
    }
  }
}
