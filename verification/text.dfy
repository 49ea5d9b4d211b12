/** Text primitives the STOMP engine relies on: Foundation's
    `components(separatedBy:)` with a one-character separator, Swift's
    `Int(String)` and `"\(n)"` for content lengths, and the UTF-8 length of a
    string. Strings are sequences of Unicode scalar values. */
module StompText {

  datatype Option<+T> = None | Some(value: T)

  /** A slice grown by one element. */
  lemma SliceExtend<T>(s: seq<T>, i: nat, j: nat)
    requires i <= j < |s|
    ensures s[i..j + 1] == s[i..j] + [s[j]]
  {
  }

  /** The two halves of a concatenation. */
  lemma ConcatParts<T>(a: seq<T>, b: seq<T>)
    ensures (a + b)[..|a|] == a && (a + b)[|a|..] == b
  {
  }

  lemma AppendAssoc<T>(x: seq<T>, y: seq<T>, z: seq<T>)
    ensures (x + y) + z == x + (y + z)
  {
  }

  /** A nonempty sequence is its front and its last element. */
  lemma FrontAndLast<T>(s: seq<T>)
    requires s != []
    ensures s == s[..|s| - 1] + [s[|s| - 1]]
  {
  }

  lemma SliceToEnd<T>(s: seq<T>, i: nat)
    requires i <= |s|
    ensures s[i..|s|] == s[i..]
  {
  }

  // ---------------------------------------------------------------------------
  // Splitting and joining
  // ---------------------------------------------------------------------------

  /** `s.components(separatedBy: [sep])`: n separators give n + 1 pieces,
      empty pieces included. */
  function Split(s: string, sep: char): (pieces: seq<string>)
    ensures |pieces| >= 1
    ensures forall i :: 0 <= i < |pieces| ==> sep !in pieces[i]
    ensures |pieces| == 1 <==> sep !in s
    decreases |s|
  {
    if s == [] then [""]
    else
      var rest := Split(s[1..], sep);
      assert s == [s[0]] + s[1..];
      if s[0] == sep then [""] + rest
      else [[s[0]] + rest[0]] + rest[1..]
  }

  /** The inverse of Split: the pieces with one separator between neighbours. */
  function Join(pieces: seq<string>, sep: char): string
    requires |pieces| >= 1
  {
    if |pieces| == 1 then pieces[0] else pieces[0] + [sep] + Join(pieces[1..], sep)
  }

  /** Every piece followed by a newline, as a frame's header block is written. */
  function Lines(ls: seq<string>): string
  {
    if ls == [] then "" else Lines(ls[..|ls| - 1]) + ls[|ls| - 1] + "\n"
  }

  lemma {:induction false} SplitNoSeparator(s: string, sep: char)
    requires sep !in s
    ensures Split(s, sep) == [s]
    decreases |s|
  {
    if s != [] {
      assert s == [s[0]] + s[1..];
      SplitNoSeparator(s[1..], sep);
    }
  }

  /** Splitting at a separator splits the two sides independently. */
  lemma {:induction false} SplitAppend(a: string, sep: char, b: string)
    ensures Split(a + [sep] + b, sep) == Split(a, sep) + Split(b, sep)
    decreases |a|
  {
    var s := a + [sep] + b;
    if a == [] {
      assert s == [sep] + b;
      assert s[1..] == b;
    } else {
      assert s[1..] == a[1..] + [sep] + b;
      SplitAppend(a[1..], sep, b);
    }
  }

  /** Split undoes Join when no piece holds the separator. */
  lemma {:induction false} SplitJoin(pieces: seq<string>, sep: char)
    requires |pieces| >= 1
    requires forall i :: 0 <= i < |pieces| ==> sep !in pieces[i]
    ensures Split(Join(pieces, sep), sep) == pieces
  {
    if |pieces| == 1 {
      SplitNoSeparator(pieces[0], sep);
    } else {
      SplitJoin(pieces[1..], sep);
      SplitAppend(pieces[0], sep, Join(pieces[1..], sep));
      SplitNoSeparator(pieces[0], sep);
    }
  }

  /** Join undoes Split: no text is lost or added by splitting. */
  lemma {:induction false} JoinSplit(s: string, sep: char)
    ensures Join(Split(s, sep), sep) == s
    decreases |s|
  {
    if s != [] {
      var rest := Split(s[1..], sep);
      JoinSplit(s[1..], sep);
      assert s == [s[0]] + s[1..];
      if s[0] == sep {
        assert ([""] + rest)[1..] == rest;
      } else if |rest| > 1 {
        var pieces := [[s[0]] + rest[0]] + rest[1..];
        assert pieces[1..] == rest[1..];
      }
    }
  }

  /** Joining a list of lines in front of more pieces is writing them as lines. */
  lemma {:induction false} JoinAfterLines(xs: seq<string>, ys: seq<string>)
    requires |ys| >= 1
    ensures Join(xs + ys, '\n') == Lines(xs) + Join(ys, '\n')
    decreases |xs|
  {
    if xs != [] {
      var init, x := xs[..|xs| - 1], xs[|xs| - 1];
      assert xs + ys == init + ([x] + ys);
      JoinAfterLines(init, [x] + ys);
      assert ([x] + ys)[1..] == ys;
      assert Join([x] + ys, '\n') == x + "\n" + Join(ys, '\n');
      assert Lines(xs) == Lines(init) + x + "\n";
      calc {
        Join(xs + ys, '\n');
        Lines(init) + Join([x] + ys, '\n');
        Lines(init) + (x + "\n" + Join(ys, '\n'));
        (Lines(init) + x + "\n") + Join(ys, '\n');
      }
    } else {
      assert xs + ys == ys;
    }
  }

  /** The last piece is what follows the last separator. */
  lemma {:induction false} JoinLast(pieces: seq<string>, sep: char)
    requires |pieces| >= 2
    ensures Join(pieces, sep) == Join(pieces[..|pieces| - 1], sep) + [sep] + pieces[|pieces| - 1]
  {
    if |pieces| > 2 {
      JoinLast(pieces[1..], sep);
      assert pieces[1..][..|pieces| - 2] == pieces[..|pieces| - 1][1..];
    }
  }

  /** The first piece is the text before the first separator and the last
      piece the text after the last one; without a separator both are the
      whole text. This is how a header line yields its key and its value. */
  lemma FirstAndLastPiece(s: string, sep: char)
    ensures var pieces := Split(s, sep);
      var first, last := pieces[0], pieces[|pieces| - 1];
      && (sep !in s ==> first == s && last == s)
      && (sep in s ==> |first| < |s| && s[..|first|] == first && s[|first|] == sep)
      && (sep in s ==> |last| < |s| && s[|s| - |last|..] == last && s[|s| - |last| - 1] == sep)
  {
    if sep in s {
      FirstPiece(s, sep);
      LastPiece(s, sep);
    } else {
      SplitNoSeparator(s, sep);
    }
  }

  lemma FirstPiece(s: string, sep: char)
    requires sep in s
    ensures var first := Split(s, sep)[0];
      |first| < |s| && s[..|first|] == first && s[|first|] == sep
  {
    var pieces := Split(s, sep);
    JoinSplit(s, sep);
    FirstPieceOfJoin(pieces, sep);
    ConcatParts(pieces[0], [sep] + Join(pieces[1..], sep));
  }

  lemma LastPiece(s: string, sep: char)
    requires sep in s
    ensures var pieces := Split(s, sep);
      var last := pieces[|pieces| - 1];
      |last| < |s| && s[|s| - |last|..] == last && s[|s| - |last| - 1] == sep
  {
    var pieces := Split(s, sep);
    JoinSplit(s, sep);
    JoinLast(pieces, sep);
    var front := Join(pieces[..|pieces| - 1], sep) + [sep];
    ConcatParts(front, pieces[|pieces| - 1]);
  }

  lemma FirstPieceOfJoin(pieces: seq<string>, sep: char)
    requires |pieces| >= 2
    ensures Join(pieces, sep) == pieces[0] + [sep] + Join(pieces[1..], sep)
  {
  }

  /** When text ends in a character other than the separator, so does the
      last piece. */
  lemma LastPieceEnd(s: string, sep: char)
    requires s != [] && s[|s| - 1] != sep
    ensures var last := Split(s, sep)[|Split(s, sep)| - 1];
      last != [] && last[|last| - 1] == s[|s| - 1]
  {
    FirstAndLastPiece(s, sep);
  }

  // ---------------------------------------------------------------------------
  // Removing a character
  // ---------------------------------------------------------------------------

  /** `s.replacingOccurrences(of: [c], with: "")`. */
  function RemoveAll(s: string, c: char): (r: string)
    ensures c !in r
    ensures forall d :: d != c ==> (d in r <==> d in s)
    ensures multiset(r) == multiset(s)[c := 0]
    ensures c !in s ==> r == s
  {
    if s == [] then ""
    else
      assert s == s[..|s| - 1] + [s[|s| - 1]];
      RemoveAll(s[..|s| - 1], c) + (if s[|s| - 1] == c then "" else [s[|s| - 1]])
  }

  /** Removal works character by character: a c is dropped and any other
      character kept... */
  lemma RemoveAllChar(d: char, c: char)
    ensures RemoveAll([d], c) == if d == c then "" else [d]
  {
    assert [d][..0] == "";
  }

  /** ...and the rest keep their order: removing from a concatenation is
      removing from each part. */
  lemma {:induction false} RemoveAllConcat(a: string, b: string, c: char)
    ensures RemoveAll(a + b, c) == RemoveAll(a, c) + RemoveAll(b, c)
    decreases |b|
  {
    if b == [] {
      assert a + b == a;
    } else {
      var front, x := b[..|b| - 1], b[|b| - 1];
      assert (a + b)[..|a + b| - 1] == a + front;
      assert b[..|b| - 1] == front;
      RemoveAllConcat(a, front, c);
      AppendAssoc(RemoveAll(a, c), RemoveAll(front, c), if x == c then "" else [x]);
    }
  }

  /** A trailing c is removed and nothing else when c occurs only there. */
  lemma RemoveLast(s: string, c: char)
    requires c !in s
    ensures RemoveAll(s + [c], c) == s
  {
    assert (s + [c])[..|s|] == s;
  }

  // ---------------------------------------------------------------------------
  // Decimal integers as Swift writes and reads them
  // ---------------------------------------------------------------------------

  const Int64Min: int := -0x8000_0000_0000_0000
  const Int64Max: int := 0x7FFF_FFFF_FFFF_FFFF

  /** Swift's `Int` is 64 bits wide on the platforms the client runs on. */
  predicate InInt64(n: int) { Int64Min <= n <= Int64Max }

  predicate IsDigit(c: char) { '0' <= c <= '9' }

  predicate AllDigits(s: string) { forall i :: 0 <= i < |s| ==> IsDigit(s[i]) }

  function DigitsValue(s: string): nat
    requires AllDigits(s)
  {
    if s == [] then 0 else DigitsValue(s[..|s| - 1]) * 10 + (s[|s| - 1] as int - '0' as int)
  }

  /** Decimal digits of n, without leading zeros. */
  function Digits(n: nat): (s: string)
    ensures |s| >= 1 && AllDigits(s)
    ensures s[0] == '0' <==> n == 0
  {
    if n < 10 then [('0' as int + n) as char]
    else Digits(n / 10) + [('0' as int + n % 10) as char]
  }

  /** `"\(n)"` for an `Int`. */
  function FormatInt(n: int): (s: string)
    ensures |s| >= 1 && (s[0] == '-' <==> n < 0)
    ensures var digits := if n < 0 then s[1..] else s;
      |digits| >= 1 && AllDigits(digits) && (digits[0] == '0' ==> digits == "0")
  {
    if n < 0 then "-" + Digits(-n) else Digits(n)
  }

  /** `Int(s)`: an optional sign, then one or more decimal digits, and a value
      that fits in 64 bits; `None` otherwise. */
  function ParseInt(s: string): (r: Option<int>)
    ensures r.Some? ==> InInt64(r.value) && |s| >= 1
    ensures r.Some? && s[0] != '-' ==> r.value >= 0
  {
    var signed := |s| > 0 && (s[0] == '-' || s[0] == '+');
    var digits := if signed then s[1..] else s;
    if |digits| == 0 || !AllDigits(digits) then None
    else
      var n: int := if signed && s[0] == '-' then -(DigitsValue(digits) as int) else DigitsValue(digits);
      if InInt64(n) then Some(n) else None
  }

  lemma {:induction false} DigitsValueOfDigits(n: nat)
    ensures DigitsValue(Digits(n)) == n
  {
    if n >= 10 {
      DigitsValueOfDigits(n / 10);
      var d := Digits(n);
      assert d[..|d| - 1] == Digits(n / 10);
    }
  }

  /** What Swift prints for an `Int` it reads back as the same `Int`. */
  lemma ParseFormatInt(n: int)
    requires InInt64(n)
    ensures ParseInt(FormatInt(n)) == Some(n)
  {
    var s := FormatInt(n);
    if n < 0 {
      DigitsValueOfDigits(-n);
      assert s[1..] == Digits(-n);
    } else {
      DigitsValueOfDigits(n);
      assert IsDigit(s[0]);
    }
  }

  // ---------------------------------------------------------------------------
  // UTF-8
  // ---------------------------------------------------------------------------

  /** Bytes UTF-8 needs for one Unicode scalar value. */
  function Utf8Width(c: char): nat
  {
    if c as int < 0x80 then 1
    else if c as int < 0x800 then 2
    else if c as int < 0x1_0000 then 3
    else 4
  }

  /** `s.utf8.count`. */
  function Utf8Length(s: string): (n: nat)
    ensures |s| <= n <= 4 * |s|
    ensures (forall i :: 0 <= i < |s| ==> s[i] as int < 0x80) ==> n == |s|
  {
    if s == [] then 0 else Utf8Length(s[..|s| - 1]) + Utf8Width(s[|s| - 1])
  }
}
