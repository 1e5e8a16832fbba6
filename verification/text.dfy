/** The string operations the core relies on, with ECMAScript's meaning:
    `toLowerCase` (on ASCII letters), `includes`, `trim`, `split` on one
    character and `join`. */
module Text {
  import opened Common

  /** `toLowerCase` of one character, on the ASCII letters. */
  function LowerChar(c: char): (r: char)
    ensures 'A' <= c <= 'Z' ==> 'a' <= r <= 'z' && r as int - c as int == 32
    ensures !('A' <= c <= 'Z') ==> r == c
  {
    if 'A' <= c <= 'Z' then (c as int + 32) as char else c
  }

  function Lower(s: string): (r: string)
    ensures |r| == |s| && forall i :: 0 <= i < |s| ==> r[i] == LowerChar(s[i])
  {
    if s == [] then [] else [LowerChar(s[0])] + Lower(s[1..])
  }

  /** `t` occurs in `s` at position `i`. */
  ghost predicate OccursAt(s: string, t: string, i: int)
  {
    0 <= i && i + |t| <= |s| && s[i..i + |t|] == t
  }

  /** `s.includes(t)`: some contiguous piece of `s` is `t`. */
  function Includes(s: string, t: string): (r: bool)
    ensures r <==> exists i :: OccursAt(s, t, i)
    decreases |s|
  {
    if |t| > |s| then false
    else if s[..|t|] == t then
      assert OccursAt(s, t, 0);
      true
    else
      var r := Includes(s[1..], t);
      ShiftOccurrence(s, t);
      r
  }

  lemma ShiftOccurrence(s: string, t: string)
    requires |t| <= |s| && s[..|t|] != t
    ensures (exists i :: OccursAt(s, t, i)) <==> (exists i :: OccursAt(s[1..], t, i))
  {
    if exists i :: OccursAt(s, t, i) {
      var i :| OccursAt(s, t, i);
      assert i != 0;
      assert s[1..][i - 1..i - 1 + |t|] == s[i..i + |t|];
      assert OccursAt(s[1..], t, i - 1);
    }
    if exists i :: OccursAt(s[1..], t, i) {
      var i :| OccursAt(s[1..], t, i);
      assert s[i + 1..i + 1 + |t|] == s[1..][i..i + |t|];
      assert OccursAt(s, t, i + 1);
    }
  }

  /** Every string includes the empty string. */
  lemma IncludesEmpty(s: string)
    ensures Includes(s, "")
  {
    assert OccursAt(s, "", 0);
  }

  /** The characters `trim` removes: ECMAScript's WhiteSpace and
      LineTerminator code points. */
  predicate IsSpace(c: char)
  {
    ('\U{9}' <= c <= '\U{D}') || c == ' ' || c == '\U{A0}' || c == '\U{1680}'
    || ('\U{2000}' <= c <= '\U{200A}') || c == '\U{2028}' || c == '\U{2029}'
    || c == '\U{202F}' || c == '\U{205F}' || c == '\U{3000}' || c == '\U{FEFF}'
  }

  /** `s` starts and ends with something other than white space. */
  predicate Trimmed(s: string)
  {
    s == [] || (!IsSpace(s[0]) && !IsSpace(s[|s| - 1]))
  }

  /** `s` with its leading white space dropped. */
  function TrimStart(s: string): (r: string)
    ensures |r| <= |s|
    ensures r == [] || !IsSpace(r[0])
  {
    if s != [] && IsSpace(s[0]) then TrimStart(s[1..]) else s
  }

  /** `s` with its trailing white space dropped. */
  function TrimEnd(s: string): (r: string)
    ensures |r| <= |s|
    ensures r == [] || (!IsSpace(r[|r| - 1]) && r[0] == s[0])
  {
    if s != [] && IsSpace(s[|s| - 1]) then TrimEnd(s[..|s| - 1]) else s
  }

  /** `TrimStart` keeps a suffix of `s`. */
  lemma {:induction false} TrimStartSuffix(s: string)
    ensures TrimStart(s) == s[|s| - |TrimStart(s)|..]
  {
    if s != [] && IsSpace(s[0]) {
      TrimStartSuffix(s[1..]);
      var r := TrimStart(s[1..]);
      assert s[1..][|s| - 1 - |r|..] == s[|s| - |r|..];
    }
  }

  /** What `TrimStart` drops is white space. */
  lemma {:induction false} TrimStartDropsSpace(s: string)
    ensures forall k :: 0 <= k < |s| - |TrimStart(s)| ==> IsSpace(s[k])
  {
    if s != [] && IsSpace(s[0]) {
      TrimStartDropsSpace(s[1..]);
      var n := |s| - |TrimStart(s[1..])|;
      forall k | 1 <= k < n ensures IsSpace(s[k]) {
        assert s[k] == s[1..][k - 1];
      }
    }
  }

  /** `TrimEnd` keeps a prefix of `s`. */
  lemma {:induction false} TrimEndPrefix(s: string)
    ensures TrimEnd(s) == s[..|TrimEnd(s)|]
  {
    if s != [] && IsSpace(s[|s| - 1]) {
      TrimEndPrefix(s[..|s| - 1]);
      var r := TrimEnd(s[..|s| - 1]);
      assert s[..|s| - 1][..|r|] == s[..|r|];
    }
  }

  /** What `TrimEnd` drops is white space. */
  lemma {:induction false} TrimEndDropsSpace(s: string)
    ensures forall k :: |TrimEnd(s)| <= k < |s| ==> IsSpace(s[k])
  {
    if s != [] && IsSpace(s[|s| - 1]) {
      TrimEndDropsSpace(s[..|s| - 1]);
      var n := |TrimEnd(s[..|s| - 1])|;
      forall k | n <= k < |s| - 1 ensures IsSpace(s[k]) {
        assert s[k] == s[..|s| - 1][k];
      }
    }
  }

  /** `s.trim()`: `s` without the white space at both of its ends. */
  function Trim(s: string): (r: string)
    ensures Trimmed(r)
  {
    TrimEnd(TrimStart(s))
  }

  /** What `Trim` keeps is the piece of `s` that starts where `TrimStart`
      starts, and everything it drops before and after that piece is white
      space. */
  lemma TrimPiece(s: string)
    ensures var r, i := Trim(s), |s| - |TrimStart(s)|;
      && i + |r| <= |s|
      && (forall k :: 0 <= k < |r| ==> r[k] == s[i + k])
      && (forall k :: 0 <= k < i ==> IsSpace(s[k]))
      && (forall k :: i + |r| <= k < |s| ==> IsSpace(s[k]))
  {
    var a := TrimStart(s);
    var r := TrimEnd(a);
    var i := |s| - |a|;
    TrimStartSuffix(s);
    TrimStartDropsSpace(s);
    TrimEndPrefix(a);
    TrimEndDropsSpace(a);
    forall k | 0 <= k < |r| ensures r[k] == s[i + k] {
      assert r[k] == a[k];
    }
    forall k | i + |r| <= k < |s| ensures IsSpace(s[k]) {
      assert s[k] == a[k - i];
    }
  }

  /** Trimming never adds a character. */
  lemma TrimKeepsOut(s: string, c: char)
    requires c !in s
    ensures c !in Trim(s)
  {
    TrimStartKeepsOut(s, c);
    TrimEndKeepsOut(TrimStart(s), c);
  }

  lemma {:induction false} TrimStartKeepsOut(s: string, c: char)
    requires c !in s
    ensures c !in TrimStart(s)
  {
    if s != [] && IsSpace(s[0]) {
      assert s == [s[0]] + s[1..];
      TrimStartKeepsOut(s[1..], c);
    }
  }

  lemma {:induction false} TrimEndKeepsOut(s: string, c: char)
    requires c !in s
    ensures c !in TrimEnd(s)
  {
    if s != [] && IsSpace(s[|s| - 1]) {
      assert s == s[..|s| - 1] + [s[|s| - 1]];
      TrimEndKeepsOut(s[..|s| - 1], c);
    }
  }

  /** A string without white space at its ends is its own trim. */
  lemma TrimTrimmed(s: string)
    requires Trimmed(s)
    ensures Trim(s) == s
  {
    assert TrimStart(s) == s;
    assert TrimEnd(s) == s;
  }

  /** A leading space makes no difference to `trim`. */
  lemma TrimLeadingSpace(s: string)
    ensures Trim(" " + s) == Trim(s)
  {
    assert (" " + s)[1..] == s;
    assert TrimStart(" " + s) == TrimStart(s);
  }

  /** `s.split(sep)`: the pieces of `s` between occurrences of `sep`; there
      is always one more piece than there are separators. */
  function Split(s: string, sep: char): (r: seq<string>)
    ensures |r| >= 1
    ensures forall i :: 0 <= i < |r| ==> sep !in r[i]
  {
    if s == [] then [""]
    else
      var rest := Split(s[1..], sep);
      if s[0] == sep then [""] + rest
      else [[s[0]] + rest[0]] + rest[1..]
  }

  /** `xs.join(sep)`. */
  function Join(xs: seq<string>, sep: string): string
  {
    if |xs| == 0 then ""
    else if |xs| == 1 then xs[0]
    else xs[0] + sep + Join(xs[1..], sep)
  }

  /** A piece without separators splits to itself. */
  lemma {:induction false} SplitNoSeparator(a: string, sep: char)
    requires sep !in a
    ensures Split(a, sep) == [a]
  {
    if a != [] {
      SplitNoSeparator(a[1..], sep);
      assert [a[0]] + a[1..] == a;
    }
  }

  /** Splitting at a separator splits the pieces list there. */
  lemma {:induction false} SplitConcat(a: string, sep: char, b: string)
    ensures Split(a + [sep] + b, sep) == Split(a, sep) + Split(b, sep)
  {
    if a == [] {
      assert a + [sep] + b == [sep] + b;
      SplitCons(sep, b, sep);
    } else {
      var c, t := a[0], a[1..];
      assert a == [c] + t;
      assert a + [sep] + b == [c] + (t + [sep] + b);
      SplitConcat(t, sep, b);
      SplitCons(c, t + [sep] + b, sep);
      SplitCons(c, t, sep);
      var ra, rb := Split(t, sep), Split(b, sep);
      if c == sep {
        PrependAssoc("", ra, rb);
      } else {
        assert (ra + rb)[0] == ra[0];
        assert (ra + rb)[1..] == ra[1..] + rb;
        PrependAssoc([c] + ra[0], ra[1..], rb);
      }
    }
  }

  /** One step of the split on a string with a known first character. */
  lemma SplitCons(c: char, t: string, sep: char)
    ensures Split([c] + t, sep)
         == (if c == sep then [""] + Split(t, sep)
             else [[c] + Split(t, sep)[0]] + Split(t, sep)[1..])
  {
    assert ([c] + t)[0] == c;
    assert ([c] + t)[1..] == t;
  }

  /** Joining the pieces back with the separator restores the string. */
  lemma {:induction false} JoinSplit(s: string, sep: char)
    ensures Join(Split(s, sep), [sep]) == s
  {
    if s != [] {
      var rest := Split(s[1..], sep);
      JoinSplit(s[1..], sep);
      if s[0] == sep {
        assert Split(s, sep) == [""] + rest;
        JoinCons("", rest, [sep]);
        assert s == [sep] + s[1..];
      } else {
        assert Split(s, sep) == [[s[0]] + rest[0]] + rest[1..];
        JoinHead([s[0]], rest, [sep]);
        assert s == [s[0]] + s[1..];
      }
    }
  }

  /** Joining with ", " puts a comma and a space between the first piece and
      the join of the rest. */
  lemma JoinCommaSpace(xs: seq<string>)
    requires |xs| >= 2
    ensures Join(xs, ", ") == xs[0] + [','] + (" " + Join(xs[1..], ", "))
  {
    var rest := Join(xs[1..], ", ");
    assert Join(xs, ", ") == xs[0] + ", " + rest;
  }

  /** Prepending a piece prepends it and a separator. */
  lemma JoinCons(x: string, xs: seq<string>, sep: string)
    requires |xs| >= 1
    ensures Join([x] + xs, sep) == x + sep + Join(xs, sep)
  {
    assert ([x] + xs)[1..] == xs;
  }

  /** Growing the first piece at its front grows the joined string at its front. */
  lemma JoinHead(p: string, xs: seq<string>, sep: string)
    requires |xs| >= 1
    ensures Join([p + xs[0]] + xs[1..], sep) == p + Join(xs, sep)
  {
    if |xs| > 1 {
      assert ([p + xs[0]] + xs[1..])[1..] == xs[1..];
    }
  }
}
