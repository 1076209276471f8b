/** The Foundation string operations the app relies on, over `string` (= `seq<char>`). */
module Text {

  /** `s.replacingOccurrences(of: pat, with: "")`: every occurrence of `pat` found by a left-to-right,
      non-overlapping scan is deleted; the result is not scanned again. */
  function DeleteAll(s: string, pat: string): (r: string)
    requires pat != []
    ensures |r| <= |s|
    decreases |s|
  {
    if |s| < |pat| then s
    else if s[..|pat|] == pat then DeleteAll(s[|pat|..], pat)
    else [s[0]] + DeleteAll(s[1..], pat)
  }

  /** Deletion adds no character. */
  lemma {:induction false} DeleteAllKeepsAbsent(s: string, pat: string, c: char)
    requires pat != []
    ensures c !in s ==> c !in DeleteAll(s, pat)
    decreases |s|
  {
    if |s| >= |pat| && c !in s {
      if s[..|pat|] == pat {
        assert c !in s[|pat|..];
        DeleteAllKeepsAbsent(s[|pat|..], pat, c);
      } else {
        assert c !in s[1..];
        DeleteAllKeepsAbsent(s[1..], pat, c);
      }
    }
  }

  /** A string that lacks one of the characters of `pat` has nothing to delete. */
  lemma {:induction false} DeleteAllAbsent(s: string, pat: string, c: char)
    requires pat != [] && c in pat && c !in s
    ensures DeleteAll(s, pat) == s
    decreases |s|
  {
    if |s| >= |pat| {
      assert c !in s[..|pat|];
      assert s[..|pat|] != pat;
      DeleteAllAbsent(s[1..], pat, c);
      assert [s[0]] + s[1..] == s;
    }
  }

  /** No occurrence of `pat` can span a character that `pat` does not contain, so deletion
      works on each side of such a character separately. */
  lemma {:induction false} DeleteAllAround(x: string, c: char, y: string, pat: string)
    requires pat != [] && c !in pat
    ensures DeleteAll(x + [c] + y, pat) == DeleteAll(x, pat) + [c] + DeleteAll(y, pat)
    decreases |x|
  {
    var s := x + [c] + y;
    if |x| < |pat| {
      DeleteAllShortLeft(x, c, y, pat);
    } else if x[..|pat|] == pat {
      assert s[..|pat|] == pat;
      assert s[|pat|..] == x[|pat|..] + [c] + y;
      DeleteAllAround(x[|pat|..], c, y, pat);
    } else {
      assert s[..|pat|] == x[..|pat|];
      assert s[1..] == x[1..] + [c] + y;
      DeleteAllAround(x[1..], c, y, pat);
    }
  }

  /** The case of `DeleteAllAround` where the left side is shorter than `pat`: nothing is deleted
      before `c`. */
  lemma {:induction false} DeleteAllShortLeft(x: string, c: char, y: string, pat: string)
    requires pat != [] && c !in pat && |x| < |pat|
    ensures DeleteAll(x + [c] + y, pat) == x + [c] + DeleteAll(y, pat)
    decreases |x|
  {
    var s := x + [c] + y;
    if |s| < |pat| {
      assert DeleteAll(y, pat) == y;
    } else {
      assert s[..|pat|] != pat by {
        assert s[..|pat|][|x|] == c;
      }
      var rest := s[1..];
      assert DeleteAll(s, pat) == [s[0]] + DeleteAll(rest, pat);
      if |x| == 0 {
        assert rest == y;
      } else {
        assert rest == x[1..] + [c] + y;
        DeleteAllShortLeft(x[1..], c, y, pat);
        assert s[0] == x[0];
        calc {
          DeleteAll(s, pat);
          [x[0]] + (x[1..] + [c] + DeleteAll(y, pat));
          ([x[0]] + x[1..]) + [c] + DeleteAll(y, pat);
          { assert [x[0]] + x[1..] == x; }
          x + [c] + DeleteAll(y, pat);
        }
      }
    }
  }

  /** Every piece of `s` between occurrences of `sep`, empty pieces included. */
  function Pieces(s: string, sep: char): (r: seq<string>)
    ensures |r| >= 1
    ensures forall k :: 0 <= k < |r| ==> sep !in r[k]
    decreases |s|
  {
    if |s| == 0 then [""]
    else
      var rest := Pieces(s[1..], sep);
      if s[0] == sep then [""] + rest else [[s[0]] + rest[0]] + rest[1..]
  }

  /** The non-empty strings of `parts`, in order. */
  function NonEmpty(parts: seq<string>): (r: seq<string>)
    ensures |r| <= |parts|
    ensures forall k :: 0 <= k < |r| ==> r[k] != "" && r[k] in parts
  {
    if |parts| == 0 then []
    else if parts[0] == "" then NonEmpty(parts[1..])
    else [parts[0]] + NonEmpty(parts[1..])
  }

  /** `s.split(separator: sep)`: Swift drops empty pieces by default. */
  function Split(s: string, sep: char): (r: seq<string>)
    ensures forall k :: 0 <= k < |r| ==> r[k] != "" && sep !in r[k]
  {
    NonEmpty(Pieces(s, sep))
  }

  lemma {:induction false} NonEmptyAppend(a: seq<string>, b: seq<string>)
    ensures NonEmpty(a + b) == NonEmpty(a) + NonEmpty(b)
  {
    if |a| > 0 {
      assert (a + b)[1..] == a[1..] + b;
      NonEmptyAppend(a[1..], b);
    } else {
      assert a + b == b;
    }
  }

  lemma {:induction false} PiecesAround(x: string, sep: char, y: string)
    ensures Pieces(x + [sep] + y, sep) == Pieces(x, sep)[..|Pieces(x, sep)| - 1]
                                          + [Pieces(x, sep)[|Pieces(x, sep)| - 1]]
                                          + Pieces(y, sep)
  {
    var s := x + [sep] + y;
    if |x| == 0 {
      assert s[1..] == y;
    } else {
      assert s[1..] == x[1..] + [sep] + y;
      PiecesAround(x[1..], sep, y);
    }
  }

  /** A separator splits a string into the pieces of its two sides. */
  lemma SplitAround(x: string, sep: char, y: string)
    ensures Split(x + [sep] + y, sep) == Split(x, sep) + Split(y, sep)
  {
    PiecesAround(x, sep, y);
    var px := Pieces(x, sep);
    assert px[..|px| - 1] + [px[|px| - 1]] == px;
    NonEmptyAppend(px, Pieces(y, sep));
  }

  /** Two or more pieces need a separator. */
  lemma SplitNeedsSeparator(s: string, sep: char)
    ensures |Split(s, sep)| >= 2 ==> sep in s
  {
    if sep !in s {
      SplitWhole(s, sep);
    }
  }

  /** A string without the separator is one piece, or none when it is empty. */
  lemma {:induction false} SplitWhole(x: string, sep: char)
    requires sep !in x
    ensures Split(x, sep) == if x == "" then [] else [x]
  {
    PiecesWhole(x, sep);
  }

  lemma {:induction false} PiecesWhole(x: string, sep: char)
    requires sep !in x
    ensures Pieces(x, sep) == [x]
  {
    if |x| > 0 {
      PiecesWhole(x[1..], sep);
      assert [x[0]] + x[1..] == x;
    }
  }

  /** `s` consists of separators only (the empty string included). */
  predicate OnlySeparators(s: string, sep: char)
  {
    forall k :: 0 <= k < |s| ==> s[k] == sep
  }

  /** The position of the first `sep` in `s`. */
  function FirstIndex(s: string, sep: char): (i: nat)
    requires sep in s
    ensures i < |s| && s[i] == sep && sep !in s[..i]
  {
    if s[0] == sep then 0
    else
      var j := FirstIndex(s[1..], sep);
      assert s[..j + 1] == [s[0]] + s[1..][..j];
      j + 1
  }

  /** A string that splits into nothing is made of separators only. */
  lemma {:induction false} SplitEmpty(s: string, sep: char)
    requires Split(s, sep) == []
    ensures OnlySeparators(s, sep)
    decreases |s|
  {
    if sep !in s {
      SplitWhole(s, sep);
    } else {
      var i := FirstIndex(s, sep);
      var x, y := s[..i], s[i + 1..];
      assert s == x + [sep] + y;
      SplitAround(x, sep, y);
      SplitWhole(x, sep);
      SplitEmpty(y, sep);
    }
  }

  /** A leading separator adds no piece. */
  lemma SplitDropSeparator(sep: char, y: string)
    ensures Split([sep] + y, sep) == Split(y, sep)
  {
    SplitAround("", sep, y);
    SplitWhole("", sep);
    assert "" + [sep] + y == [sep] + y;
  }

  /** The first piece of a split stands in `s` after separators only (`lead`), and what follows
      it (`tail`) splits into the remaining pieces and is empty or starts with a separator. */
  lemma {:induction false} SplitHead(s: string, sep: char) returns (lead: string, tail: string)
    requires Split(s, sep) != []
    ensures s == lead + Split(s, sep)[0] + tail && OnlySeparators(lead, sep)
    ensures Split(tail, sep) == Split(s, sep)[1..] && (tail == [] || tail[0] == sep)
    decreases |s|
  {
    if sep !in s {
      lead, tail := SplitHeadWhole(s, sep);
    } else if s[0] != sep {
      lead, tail := SplitHeadPiece(s, sep);
    } else {
      var y := s[1..];
      assert s == [sep] + y;
      SplitDropSeparator(sep, y);
      var lead', tail' := SplitHead(y, sep);
      lead, tail := [sep] + lead', tail';
      assert s == lead + Split(s, sep)[0] + tail;
    }
  }

  /** `SplitHead` for a string without the separator: it is the only piece. */
  lemma SplitHeadWhole(s: string, sep: char) returns (lead: string, tail: string)
    requires Split(s, sep) != [] && sep !in s
    ensures s == lead + Split(s, sep)[0] + tail && OnlySeparators(lead, sep)
    ensures Split(tail, sep) == Split(s, sep)[1..] && (tail == [] || tail[0] == sep)
  {
    SplitWhole(s, sep);
    SplitWhole("", sep);
    lead, tail := "", "";
    assert s == lead + s + tail;
  }

  /** `SplitHead` for a string that starts with a piece: the piece runs up to the first separator. */
  lemma SplitHeadPiece(s: string, sep: char) returns (lead: string, tail: string)
    requires sep in s && s[0] != sep
    ensures s == lead + Split(s, sep)[0] + tail && OnlySeparators(lead, sep)
    ensures Split(tail, sep) == Split(s, sep)[1..] && (tail == [] || tail[0] == sep)
  {
    var i := FirstIndex(s, sep);
    var x, y := s[..i], s[i + 1..];
    assert s == x + [sep] + y;
    assert x != "" by { assert s[0] != sep == s[i]; }
    lead, tail := "", [sep] + y;
    SplitFirstPiece(x, sep, y);
    assert s == lead + x + tail;
  }

  /** A separator-free, non-empty start is the first piece, and the rest begins at the separator. */
  lemma SplitFirstPiece(x: string, sep: char, y: string)
    requires x != "" && sep !in x
    ensures Split(x + [sep] + y, sep) == [x] + Split([sep] + y, sep)
  {
    SplitAround(x, sep, y);
    SplitWhole(x, sep);
    SplitDropSeparator(sep, y);
  }

  /** A string that splits into exactly two pieces is those pieces, in order, with only
      separators before (`lead`), between (`mid`, at least one) and after them (`trail`). */
  lemma SplitTwo(s: string, sep: char) returns (lead: string, mid: string, trail: string)
    requires |Split(s, sep)| == 2
    ensures s == lead + Split(s, sep)[0] + mid + Split(s, sep)[1] + trail
    ensures OnlySeparators(lead, sep) && OnlySeparators(mid, sep) && mid != []
    ensures OnlySeparators(trail, sep)
  {
    var a, b := Split(s, sep)[0], Split(s, sep)[1];
    var tail;
    lead, tail := SplitHead(s, sep);
    assert Split(tail, sep) == [b];
    mid, trail := SplitHead(tail, sep);
    SplitEmpty(trail, sep);
    assert s == lead + a + mid + b + trail;
  }

  /** The total length of `parts`. */
  function TotalLength(parts: seq<string>): nat
  {
    if parts == [] then 0 else |parts[0]| + TotalLength(parts[1..])
  }

  /** `parts.joined(separator: sep)`: the parts in order, with one `sep` between neighbours, so
      the result starts with the first part and its length is the parts' total plus one `sep`
      per gap. */
  function Join(parts: seq<string>, sep: string): (r: string)
    ensures parts != [] ==> parts[0] <= r
    ensures parts != [] ==> |r| == TotalLength(parts) + (|parts| - 1) * |sep|
    ensures parts == [] ==> r == ""
  {
    if |parts| == 0 then ""
    else if |parts| == 1 then parts[0]
    else parts[0] + sep + Join(parts[1..], sep)
  }

  /** Splits `s` at every occurrence of the (non-empty) separator `sep`, keeping empty pieces;
      the inverse of `Join` (see `JoinSplitRoundTrip`). */
  function SplitOn(s: string, sep: string): (r: seq<string>)
    requires sep != []
    ensures |r| >= 1
    decreases |s|
  {
    if |s| < |sep| then [s]
    else if s[..|sep|] == sep then [""] + SplitOn(s[|sep|..], sep)
    else
      var rest := SplitOn(s[1..], sep);
      [[s[0]] + rest[0]] + rest[1..]
  }

  lemma {:induction false} SplitOnWhole(x: string, sep: string)
    requires sep != [] && sep[0] !in x
    ensures SplitOn(x, sep) == [x]
    decreases |x|
  {
    if |x| >= |sep| {
      assert x[..|sep|][0] == x[0] != sep[0];
      SplitOnWhole(x[1..], sep);
      assert [x[0]] + x[1..] == x;
    }
  }

  lemma {:induction false} SplitOnFirst(x: string, sep: string, y: string)
    requires sep != [] && sep[0] !in x
    ensures SplitOn(x + sep + y, sep) == [x] + SplitOn(y, sep)
    decreases |x|
  {
    var s := x + sep + y;
    if |x| == 0 {
      assert s[..|sep|] == sep && s[|sep|..] == y;
    } else {
      assert s[..|sep|][0] == x[0] != sep[0];
      assert s[1..] == x[1..] + sep + y;
      SplitOnFirst(x[1..], sep, y);
      assert [x[0]] + x[1..] == x;
    }
  }

  /** Splitting a joined list recovers it, provided no part contains the first character of the
      separator (so no separator can begin inside a part). */
  lemma {:induction false} JoinSplitRoundTrip(parts: seq<string>, sep: string)
    requires sep != [] && |parts| >= 1
    requires forall k :: 0 <= k < |parts| ==> sep[0] !in parts[k]
    ensures SplitOn(Join(parts, sep), sep) == parts
  {
    if |parts| == 1 {
      SplitOnWhole(parts[0], sep);
    } else {
      JoinSplitRoundTrip(parts[1..], sep);
      SplitOnFirst(parts[0], sep, Join(parts[1..], sep));
      assert [parts[0]] + parts[1..] == parts;
    }
  }
}
