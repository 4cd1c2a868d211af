/** The two JavaScript string built-ins the key handler relies on:
    `String.prototype.trim` (applied to the input buffer on Enter) and
    `String.prototype.split` with a one-character separator (the tokenizer),
    together with the `join` that undoes a split. */
module Text {

  /** The code points `trim` removes: ECMAScript's WhiteSpace production
      (TAB, VT, FF, SPACE, NO-BREAK SPACE, ZERO WIDTH NO-BREAK SPACE and the
      Unicode "Space_Separator" characters) and its LineTerminator production
      (LF, CR, LINE SEPARATOR, PARAGRAPH SEPARATOR). */
  predicate IsWhitespace(c: char) {
    c == '\t' || c == '\n' || c == '\U{000B}' || c == '\U{000C}' || c == '\r' || c == ' '
    || c == '\U{00A0}' || c == '\U{1680}' || ('\U{2000}' <= c <= '\U{200A}')
    || c == '\U{2028}' || c == '\U{2029}' || c == '\U{202F}' || c == '\U{205F}'
    || c == '\U{3000}' || c == '\U{FEFF}'
  }

  /** Drops the leading whitespace (`TrimStartIsSuffix` says what is left). */
  function TrimStart(s: string): string
  {
    if s != [] && IsWhitespace(s[0]) then TrimStart(s[1..]) else s
  }

  /** `TrimStart(s)` is the longest suffix of `s` that does not start with
      whitespace. */
  lemma {:induction false} TrimStartIsSuffix(s: string)
    ensures var r := TrimStart(s);
            && |r| <= |s| && r == s[|s| - |r|..]
            && (forall k :: 0 <= k < |s| - |r| ==> IsWhitespace(s[k]))
            && (r != [] ==> !IsWhitespace(r[0]))
  {
    var r := TrimStart(s);
    if s != [] && IsWhitespace(s[0]) {
      var tail := s[1..];
      TrimStartIsSuffix(tail);
      assert r == TrimStart(tail);
      assert tail[|tail| - |r|..] == s[|s| - |r|..];
      WhitespacePrefixExtends(s, |s| - |r|);
    } else {
      assert r == s;
    }
  }

  /** A whitespace character followed by `n - 1` more is a whitespace run
      of length `n`. */
  lemma WhitespacePrefixExtends(s: string, n: nat)
    requires 0 < n <= |s| && IsWhitespace(s[0])
    requires forall k :: 0 <= k < n - 1 ==> IsWhitespace(s[1..][k])
    ensures forall k :: 0 <= k < n ==> IsWhitespace(s[k])
  {
    forall k | 1 <= k < n ensures IsWhitespace(s[k]) {
      assert s[k] == s[1..][k - 1];
    }
  }

  /** Drops the trailing whitespace (`TrimEndIsPrefix` says what is left). */
  function TrimEnd(s: string): string
  {
    if s != [] && IsWhitespace(s[|s| - 1]) then TrimEnd(s[..|s| - 1]) else s
  }

  /** `TrimEnd(s)` is the longest prefix of `s` that does not end with
      whitespace. */
  lemma {:induction false} TrimEndIsPrefix(s: string)
    ensures var r := TrimEnd(s);
            && |r| <= |s| && r == s[..|r|]
            && (forall k :: |r| <= k < |s| ==> IsWhitespace(s[k]))
            && (r != [] ==> !IsWhitespace(r[|r| - 1]))
  {
    if s != [] && IsWhitespace(s[|s| - 1]) {
      var init := s[..|s| - 1];
      var r := TrimEnd(init);
      TrimEndIsPrefix(init);
      assert TrimEnd(s) == r;
      assert init[..|r|] == s[..|r|];
      forall k | |r| <= k < |s| - 1 ensures IsWhitespace(s[k]) {
        assert s[k] == init[k];
      }
    }
  }

  /** No whitespace at either end. */
  predicate IsTrimmed(s: string) {
    s == [] || (!IsWhitespace(s[0]) && !IsWhitespace(s[|s| - 1]))
  }

  /** `s.trim()`: no whitespace is left at either end. That the result is
      the slice of `s` between its surrounding whitespace, and is empty
      exactly when `s` is all whitespace, is `TrimIsSlice`. */
  function Trim(s: string): (r: string)
    ensures IsTrimmed(r)
  {
    TrimStartIsSuffix(s);
    TrimEndIsPrefix(TrimStart(s));
    TrimEnd(TrimStart(s))
  }

  /** What `trim` removes is whitespace, from the two ends only: the result
      is a slice `s[i..j]` with only whitespace outside it, and it is empty
      exactly when `s` is all whitespace. */
  lemma TrimIsSlice(s: string)
    ensures exists i, j :: 0 <= i <= j <= |s| && Trim(s) == s[i..j]
              && (forall k :: 0 <= k < i ==> IsWhitespace(s[k]))
              && (forall k :: j <= k < |s| ==> IsWhitespace(s[k]))
    ensures Trim(s) == [] <==> forall k :: 0 <= k < |s| ==> IsWhitespace(s[k])
  {
    var t := TrimStart(s);
    var r := TrimEnd(t);
    TrimStartIsSuffix(s);
    TrimEndIsPrefix(t);
    var i := |s| - |t|;
    var j := i + |r|;
    assert r == s[i..j];
    forall k | j <= k < |s| ensures IsWhitespace(s[k]) {
      assert s[k] == t[k - i];
    }
    assert Trim(s) == s[i..j];
    if r != [] {
      assert s[i] == r[0];
    }
  }

  /** A string is its own trim exactly when it has no whitespace at either
      end. */
  lemma TrimFixedPoint(s: string)
    ensures Trim(s) == s <==> IsTrimmed(s)
  {
    if s != [] && !IsWhitespace(s[0]) && !IsWhitespace(s[|s| - 1]) {
      assert TrimStart(s) == s;
      assert TrimEnd(s) == s;
    }
  }

  /** Trimming twice is trimming once. */
  lemma TrimIdempotent(s: string)
    ensures Trim(Trim(s)) == Trim(s)
  {
    TrimFixedPoint(Trim(s));
  }

  /** `s.split(sep)` for a one-character separator: the maximal runs of
      non-separator characters between separators, including the empty runs
      left by adjacent separators or a separator at either end. There is
      always at least one piece (`"".split(" ")` is `[""]`). */
  function Split(s: string, sep: char): (pieces: seq<string>)
    ensures |pieces| >= 1
  {
    if s == [] then [""]
    else
      var rest := Split(s[1..], sep);
      if s[0] == sep then [""] + rest
      else [[s[0]] + rest[0]] + rest[1..]
  }

  /** No piece of a split holds the separator. */
  lemma {:induction false} SplitPiecesLackSeparator(s: string, sep: char)
    ensures forall p :: p in Split(s, sep) ==> sep !in p
  {
    if s != [] {
      SplitPiecesLackSeparator(s[1..], sep);
      var rest := Split(s[1..], sep);
      if s[0] != sep {
        assert forall p :: p in rest[1..] ==> p in rest;
        assert rest[0] in rest;
      }
    }
  }

  /** `pieces.join(sep)`: the pieces with one separator between neighbours. */
  function Join(pieces: seq<string>, sep: char): string
  {
    if |pieces| == 0 then ""
    else if |pieces| == 1 then pieces[0]
    else pieces[0] + [sep] + Join(pieces[1..], sep)
  }

  /** Joining the pieces of a split gives the original string back. */
  lemma {:induction false} JoinSplit(s: string, sep: char)
    ensures Join(Split(s, sep), sep) == s
  {
    if s != [] {
      var rest := Split(s[1..], sep);
      JoinSplit(s[1..], sep);
      if s[0] == sep {
        assert Split(s, sep) == [""] + rest;
        assert ([""] + rest)[1..] == rest;
      } else {
        var pieces := [[s[0]] + rest[0]] + rest[1..];
        assert Split(s, sep) == pieces;
        if |rest| == 1 {
          assert rest == [rest[0]];
        } else {
          assert pieces[1..] == rest[1..];
          assert Join(rest, sep) == rest[0] + [sep] + Join(rest[1..], sep);
        }
      }
    }
  }

  /** Splitting `a + t` when `a` holds no separator glues `a` onto the first
      piece of `t`. */
  lemma {:induction false} SplitPrefix(a: string, t: string, sep: char)
    requires sep !in a
    ensures Split(a + t, sep) == [a + Split(t, sep)[0]] + Split(t, sep)[1..]
  {
    if a != [] {
      assert (a + t)[1..] == a[1..] + t;
      assert (a + t)[0] == a[0];
      SplitPrefix(a[1..], t, sep);
      assert [a[0]] + (a[1..] + Split(t, sep)[0]) == a + Split(t, sep)[0];
    } else {
      var ps := Split(t, sep);
      assert a + t == t && a + ps[0] == ps[0];
      assert [ps[0]] + ps[1..] == ps;
    }
  }

  /** A separator-free `a`, a separator, then `b`: the pieces are `a`
      followed by the pieces of `b`. */
  lemma SplitAtSeparator(a: string, b: string, sep: char)
    requires sep !in a
    ensures Split(a + [sep] + b, sep) == [a] + Split(b, sep)
  {
    var t := [sep] + b;
    assert a + [sep] + b == a + t;
    SplitPrefix(a, t, sep);
    assert t[1..] == b;
    var ps := Split(t, sep);
    assert ps == [""] + Split(b, sep);
    assert a + ps[0] == a;
  }

  /** Splitting the join of separator-free pieces gives the pieces back: the
      other half of the round trip. */
  lemma {:induction false} SplitJoin(pieces: seq<string>, sep: char)
    requires |pieces| >= 1
    requires forall p :: p in pieces ==> sep !in p
    ensures Split(Join(pieces, sep), sep) == pieces
  {
    var a := pieces[0];
    if |pieces| == 1 {
      SplitPrefix(a, "", sep);
      assert a + "" == a;
    } else {
      var rest := pieces[1..];
      assert forall p :: p in rest ==> p in pieces;
      SplitJoin(rest, sep);
      SplitAtSeparator(a, Join(rest, sep), sep);
      assert pieces == [a] + rest;
    }
  }
}
