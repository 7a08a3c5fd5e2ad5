/** String operations the sequence assembler relies on, written as Python
    performs them on `str` values: `sep.join(parts)`, `s.replace(old, new)`
    for one-character arguments, and `str(n)` on an integer. The assembler
    never splits a string; `s.split(sep)` is here to read a joined file name
    back into its pieces, which is how the round-trip properties of the name
    are stated. */
module Text {

  /** The total number of characters in the parts. */
  function TotalLength(parts: seq<string>): nat
  {
    if |parts| == 0 then 0 else |parts[0]| + TotalLength(parts[1..])
  }

  /** `sep.join(parts)`: the parts with one separator between neighbours.
      The result is as long as the parts together plus one separator fewer
      than there are parts, and starts with the first part. */
  function Join(parts: seq<string>, sep: char): (r: string)
    ensures |parts| == 0 ==> r == ""
    ensures |parts| >= 1 ==> |r| == TotalLength(parts) + |parts| - 1
    ensures |parts| >= 1 ==> r[..|parts[0]|] == parts[0]
  {
    if |parts| == 0 then ""
    else if |parts| == 1 then parts[0]
    else parts[0] + [sep] + Join(parts[1..], sep)
  }

  /** `s.split(sep)`: the pieces between separators. There is always one
      piece more than there are separators, so the empty string splits into
      one empty piece, and no piece contains the separator. */
  function Split(s: string, sep: char): (r: seq<string>)
    ensures |r| == 1 + multiset(s)[sep]
    ensures forall i :: 0 <= i < |r| ==> sep !in r[i]
    decreases |s|
  {
    if |s| == 0 then [""]
    else
      var rest := Split(s[1..], sep);
      assert s == [s[0]] + s[1..];
      if s[0] == sep then [""] + rest
      else [[s[0]] + rest[0]] + rest[1..]
  }

  /** A string without the separator is a single piece. */
  lemma {:induction false} SplitWithoutSeparator(s: string, sep: char)
    requires sep !in s
    ensures Split(s, sep) == [s]
    decreases |s|
  {
    if |s| > 0 {
      SplitWithoutSeparator(s[1..], sep);
      assert s[0] != sep;
      assert [s[0]] + s[1..] == s;
    }
  }

  /** Splitting a string that starts with a piece and a separator yields
      that piece, then the pieces of the rest. */
  lemma {:induction false} SplitAfterPiece(piece: string, sep: char, rest: string)
    requires sep !in piece
    ensures Split(piece + [sep] + rest, sep) == [piece] + Split(rest, sep)
    decreases |piece|
  {
    var s := piece + [sep] + rest;
    if |piece| == 0 {
      assert s[1..] == rest;
    } else {
      assert s[1..] == piece[1..] + [sep] + rest;
      SplitAfterPiece(piece[1..], sep, rest);
      assert [s[0]] + piece[1..] == piece;
    }
  }

  /** Two pieces around one separator split back into those two pieces. */
  lemma SplitTwoPieces(first: string, sep: char, second: string)
    requires sep !in first && sep !in second
    ensures Split(first + [sep] + second, sep) == [first, second]
  {
    SplitAfterPiece(first, sep, second);
    SplitWithoutSeparator(second, sep);
  }

  /** Splitting undoes joining, provided there is at least one part and no
      part contains the separator. */
  lemma {:induction false} SplitJoin(parts: seq<string>, sep: char)
    requires |parts| >= 1
    requires forall i :: 0 <= i < |parts| ==> sep !in parts[i]
    ensures Split(Join(parts, sep), sep) == parts
    decreases |parts|
  {
    if |parts| == 1 {
      SplitWithoutSeparator(parts[0], sep);
    } else {
      SplitJoin(parts[1..], sep);
      SplitAfterPiece(parts[0], sep, Join(parts[1..], sep));
      assert [parts[0]] + parts[1..] == parts;
    }
  }

  /** Putting a character in front of the first part puts it in front of
      the joined string. */
  lemma JoinExtendFirst(c: char, parts: seq<string>, sep: char)
    requires |parts| >= 1
    ensures Join([[c] + parts[0]] + parts[1..], sep) == [c] + Join(parts, sep)
  {
    var extended := [[c] + parts[0]] + parts[1..];
    if |parts| > 1 {
      assert extended[1..] == parts[1..];
    }
  }

  /** An empty first part contributes only its separator. */
  lemma JoinPrependEmpty(parts: seq<string>, sep: char)
    requires |parts| >= 1
    ensures Join([""] + parts, sep) == [sep] + Join(parts, sep)
  {
    assert ([""] + parts)[1..] == parts;
  }

  /** Joining undoes splitting, for every string. */
  lemma {:induction false} JoinSplit(s: string, sep: char)
    ensures Join(Split(s, sep), sep) == s
    decreases |s|
  {
    if |s| > 0 {
      var rest := Split(s[1..], sep);
      JoinSplit(s[1..], sep);
      if s[0] == sep {
        assert Split(s, sep) == [""] + rest;
        JoinPrependEmpty(rest, sep);
      } else {
        assert Split(s, sep) == [[s[0]] + rest[0]] + rest[1..];
        JoinExtendFirst(s[0], rest, sep);
      }
      assert [s[0]] + s[1..] == s;
    }
  }

  /** `s.replace(target, replacement)` for one-character arguments: every
      occurrence of `target` becomes `replacement` and every other character stays. */
  function ReplaceChar(s: string, target: char, replacement: char): (r: string)
    ensures |r| == |s|
    ensures target != replacement ==> target !in r
    ensures target !in s ==> r == s
    ensures forall i :: 0 <= i < |s| && s[i] != target ==> r[i] == s[i]
    ensures forall i :: 0 <= i < |s| && s[i] == target ==> r[i] == replacement
  {
    seq(|s|, i requires 0 <= i < |s| => if s[i] == target then replacement else s[i])
  }

  predicate IsDigit(c: char)
  {
    '0' as int <= c as int <= '9' as int
  }

  /** The decimal value of a string of digits. */
  function DecimalValue(s: string): nat
    requires forall i :: 0 <= i < |s| ==> IsDigit(s[i])
  {
    if |s| == 0 then 0
    else
      assert IsDigit(s[|s| - 1]);
      10 * DecimalValue(s[..|s| - 1]) + ((s[|s| - 1] as int) - ('0' as int))
  }

  /** `str(n)` for a natural number: a non-empty string of decimal digits
      whose value is `n`, with no leading zero. */
  function NatToString(n: nat): (r: string)
    ensures |r| >= 1
    ensures forall i :: 0 <= i < |r| ==> IsDigit(r[i])
    ensures DecimalValue(r) == n
    ensures |r| > 1 ==> r[0] != '0'
  {
    if n < 10 then [(n + '0' as int) as char]
    else
      var high := NatToString(n / 10);
      var r := high + [(n % 10 + '0' as int) as char];
      assert r[..|r| - 1] == high;
      r
  }

  /** The decimal text of an integer contains neither the filename
      separator `_` nor `/`. */
  lemma IntToStringHasNoSeparators(n: int)
    ensures '_' !in IntToString(n) && '/' !in IntToString(n)
  {
    var r := IntToString(n);
    assert forall i :: 0 <= i < |r| ==> r[i] != '_' && r[i] != '/';
  }

  /** `str(n)` for an integer: a minus sign for a negative number, then the
      decimal digits of its magnitude, with no leading zero. */
  function IntToString(n: int): (r: string)
    ensures |r| >= 1
    ensures (r[0] == '-') <==> n < 0
    ensures forall i :: 1 <= i < |r| ==> IsDigit(r[i])
    ensures forall i :: 0 <= i < |r| ==> IsDigit(r[i]) || r[i] == '-'
    ensures n >= 0 ==> DecimalValue(r) == n && (|r| > 1 ==> r[0] != '0')
    ensures n < 0 ==> |r| >= 2 && DecimalValue(r[1..]) == -n && (|r| > 2 ==> r[1] != '0')
  {
    if n < 0 then "-" + NatToString(-n) else NatToString(n)
  }
}
