/**
 * The JavaScript built-ins that the route handlers lean on, stated over Dafny
 * values: truthiness of a request-body field, Array.prototype.indexOf,
 * Array.prototype.splice and String.prototype.split with a one-character
 * separator.
 */
module Js {

  /** A request-body field: absent (`undefined`) or a string. */
  datatype Option<+T> = None | Some(value: T)

  /** JavaScript truthiness of a field that is either absent or a string. */
  predicate Truthy(v: Option<string>)
    ensures v.None? || v.value == "" ==> !Truthy(v)
    ensures v.Some? && |v.value| > 0 ==> Truthy(v)
  {
    v.Some? && v.value != ""
  }

  /**
   * Array.prototype.indexOf: the first index holding `x`, or -1 when there is none.
   */
  function IndexOf<T(==)>(s: seq<T>, x: T): (i: int)
    ensures -1 <= i < |s|
    ensures i == -1 <==> x !in s
    ensures 0 <= i ==> s[i] == x && x !in s[..i]
  {
    if |s| == 0 then -1
    else if s[0] == x then 0
    else
      var j := IndexOf(s[1..], x);
      if j == -1 then -1 else j + 1
  }

  /**
   * The position at which Array.prototype.splice starts on an array of length
   * `len`: a negative start counts back from the end and is clamped at 0, a
   * start past the end is clamped to the length.
   */
  function SpliceStart(len: nat, start: int): (k: nat)
    ensures k <= len
    ensures 0 <= start <= len ==> k == start
    ensures start < 0 && len + start >= 0 ==> k == len + start
    ensures start < 0 && len + start < 0 ==> k == 0
    ensures start > len ==> k == len
  {
    if start < 0 then (if len + start < 0 then 0 else len + start)
    else if start > len then len
    else start
  }

  /**
   * Array.prototype.splice(start, deleteCount) with nothing inserted: the array
   * that is left once the removed run is taken out. The delete count is
   * clamped to what lies between the start position and the end.
   */
  function Splice<T>(s: seq<T>, start: int, deleteCount: int): (r: seq<T>)
    ensures var k := SpliceStart(|s|, start);
            var d := if deleteCount < 0 then 0
                     else if deleteCount > |s| - k then |s| - k
                     else deleteCount;
            |r| == |s| - d && r[..k] == s[..k] && r[k..] == s[k + d..]
  {
    var k := SpliceStart(|s|, start);
    var d := if deleteCount < 0 then 0 else if deleteCount > |s| - k then |s| - k else deleteCount;
    s[..k] + s[k + d..]
  }

  /** splice(i, 1) on an index inside the array removes exactly the element at i. */
  lemma SpliceOneAt<T>(s: seq<T>, i: int)
    requires 0 <= i < |s|
    ensures Splice(s, i, 1) == s[..i] + s[i + 1..]
    ensures |Splice(s, i, 1)| == |s| - 1
  {
  }

  /** splice(-1, 1), what a failed indexOf leads to, removes the last element of a non-empty array. */
  lemma SpliceMinusOne<T>(s: seq<T>)
    requires |s| > 0
    ensures Splice(s, -1, 1) == s[..|s| - 1]
  {
  }

  /** splice on an empty array leaves it empty, whatever the start and the count. */
  lemma SpliceEmpty<T>(s: seq<T>, start: int, deleteCount: int)
    requires |s| == 0
    ensures Splice(s, start, deleteCount) == []
  {
  }

  /** Number of occurrences of `c` in `s`. */
  function Count(s: string, c: char): (n: nat)
    ensures n <= |s|
    ensures n == 0 <==> c !in s
  {
    if |s| == 0 then 0
    else (if s[0] == c then 1 else 0) + Count(s[1..], c)
  }

  /**
   * String.prototype.split with a one-character separator: the maximal
   * separator-free runs, in order. Adjacent, leading and trailing separators
   * give empty pieces, and the empty string splits into one empty piece.
   */
  function Split(s: string, sep: char): (r: seq<string>)
    ensures |r| == Count(s, sep) + 1
    ensures forall i :: 0 <= i < |r| ==> sep !in r[i]
  {
    if |s| == 0 then [""]
    else
      var rest := Split(s[1..], sep);
      if s[0] == sep then [""] + rest
      else [[s[0]] + rest[0]] + rest[1..]
  }

  /** Array.prototype.join with a one-character separator, on a non-empty array. */
  function Join(pieces: seq<string>, sep: char): (s: string)
    requires |pieces| > 0
    ensures |s| >= |pieces| - 1
  {
    if |pieces| == 1 then pieces[0]
    else pieces[0] + [sep] + Join(pieces[1..], sep)
  }

  /** Joining the pieces of a split with the same separator gives the input back. */
  lemma {:induction false} JoinSplit(s: string, sep: char)
    ensures Join(Split(s, sep), sep) == s
  {
    if |s| > 0 {
      var rest := Split(s[1..], sep);
      JoinSplit(s[1..], sep);
      assert s == [s[0]] + s[1..];
      if s[0] == sep {
        JoinCons("", rest, sep);
      } else if |rest| > 1 {
        JoinCons([s[0]] + rest[0], rest[1..], sep);
        JoinCons(rest[0], rest[1..], sep);
      }
    }
  }

  /** Join of a piece in front of a non-empty array. */
  lemma JoinCons(first: string, rest: seq<string>, sep: char)
    requires |rest| > 0
    ensures Join([first] + rest, sep) == first + [sep] + Join(rest, sep)
  {
    assert ([first] + rest)[1..] == rest;
  }

  /** Splitting a piece followed by the separator peels that piece off the front. */
  lemma {:induction false} SplitPeel(a: string, sep: char, b: string)
    requires sep !in a
    ensures Split(a + [sep] + b, sep) == [a] + Split(b, sep)
  {
    if |a| == 0 {
      assert a + [sep] + b == [sep] + b;
      assert ([sep] + b)[1..] == b;
    } else {
      assert (a + [sep] + b)[1..] == a[1..] + [sep] + b;
      assert (a + [sep] + b)[0] == a[0];
      assert sep !in a[1..] by {
        forall j | 0 <= j < |a[1..]| ensures a[1..][j] != sep {
          assert a[1..][j] == a[j + 1];
        }
      }
      SplitPeel(a[1..], sep, b);
      assert [a[0]] + a[1..] == a;
    }
  }

  /** Splitting a separator-free string gives that string as the only piece. */
  lemma {:induction false} SplitNoSep(s: string, sep: char)
    requires sep !in s
    ensures Split(s, sep) == [s]
  {
    if |s| > 0 {
      assert sep !in s[1..] by {
        forall j | 0 <= j < |s[1..]| ensures s[1..][j] != sep {
          assert s[1..][j] == s[j + 1];
        }
      }
      SplitNoSep(s[1..], sep);
      assert [s[0]] + s[1..] == s;
    }
  }

  /**
   * Splitting a join of separator-free pieces gives the pieces back, so
   * Split and Join are inverse on the strings and piece lists they relate.
   */
  lemma {:induction false} SplitJoin(pieces: seq<string>, sep: char)
    requires |pieces| > 0
    requires forall i :: 0 <= i < |pieces| ==> sep !in pieces[i]
    ensures Split(Join(pieces, sep), sep) == pieces
  {
    if |pieces| == 1 {
      SplitNoSep(pieces[0], sep);
    } else {
      SplitJoin(pieces[1..], sep);
      SplitPeel(pieces[0], sep, Join(pieces[1..], sep));
      assert [pieces[0]] + pieces[1..] == pieces;
    }
  }
}
