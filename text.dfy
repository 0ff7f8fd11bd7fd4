/** String operations the trainer relies on: Python 2's `str.upper`,
    `str.split(sep)` and `sep.join(parts)`, on byte strings (ASCII). */
module Text {

  predicate IsLower(c: char) {
    'a' <= c <= 'z'
  }

  function UpperChar(c: char): char {
    if IsLower(c) then (c as int - 32) as char else c
  }

  /** `s.upper()`: every ASCII lower-case letter becomes its capital. */
  function Upper(s: string): (r: string)
    ensures |r| == |s|
    ensures forall c :: c in r ==> !IsLower(c)
    ensures forall i :: 0 <= i < |s| && !IsLower(s[i]) ==> r[i] == s[i]
    ensures forall i :: 0 <= i < |s| && IsLower(s[i]) ==> 'A' <= r[i] <= 'Z' && r[i] as int == s[i] as int - 32
  {
    seq(|s|, i requires 0 <= i < |s| => UpperChar(s[i]))
  }

  /** `sep` occurs in `t` starting at index `i`. */
  predicate OccursAt(t: string, sep: string, i: int) {
    0 <= i && i + |sep| <= |t| && t[i..i + |sep|] == sep
  }

  /** `sep` occurs somewhere inside `t`. */
  predicate Contains(t: string, sep: string) {
    exists i :: 0 <= i <= |t| && OccursAt(t, sep, i)
  }

  /** `s.split(sep)` for a non-empty separator: cut at every occurrence of
      `sep`, scanning from the left, occurrences not overlapping. */
  function Split(s: string, sep: string): (r: seq<string>)
    requires sep != []
    ensures |r| >= 1
    ensures r[0] <= s
    decreases |s|
  {
    if |s| < |sep| then [s]
    else if s[..|sep|] == sep then [[]] + Split(s[|sep|..], sep)
    else
      var rest := Split(s[1..], sep);
      [[s[0]] + rest[0]] + rest[1..]
  }

  /** The total length of the parts. */
  function TotalLength(parts: seq<string>): nat {
    if parts == [] then 0 else |parts[0]| + TotalLength(parts[1..])
  }

  /** `sep.join(parts)`: the parts in order with one separator between
      each two, so the parts' lengths plus |parts| - 1 separators. */
  function Join(parts: seq<string>, sep: string): (r: string)
    ensures |parts| >= 1 ==> |r| == TotalLength(parts) + (|parts| - 1) * |sep|
    ensures |parts| >= 1 ==> parts[0] <= r
  {
    if |parts| == 0 then []
    else if |parts| == 1 then parts[0]
    else parts[0] + sep + Join(parts[1..], sep)
  }

  lemma JoinConsHead(c: char, parts: seq<string>, sep: string)
    requires |parts| >= 1
    ensures Join([[c] + parts[0]] + parts[1..], sep) == [c] + Join(parts, sep)
  {
    var q := [[c] + parts[0]] + parts[1..];
    assert q[1..] == parts[1..];
  }

  lemma JoinConsEmpty(parts: seq<string>, sep: string)
    requires |parts| >= 1
    ensures Join([[]] + parts, sep) == sep + Join(parts, sep)
  {
    var q := [[]] + parts;
    assert q[1..] == parts;
  }

  /** Joining the pieces of a split with the same separator gives back the string. */
  lemma {:induction false} JoinSplit(s: string, sep: string)
    requires sep != []
    ensures Join(Split(s, sep), sep) == s
    decreases |s|
  {
    if |s| < |sep| {
    } else if s[..|sep|] == sep {
      JoinSplit(s[|sep|..], sep);
      JoinConsEmpty(Split(s[|sep|..], sep), sep);
      assert s == s[..|sep|] + s[|sep|..];
    } else {
      var rest := Split(s[1..], sep);
      JoinSplit(s[1..], sep);
      JoinConsHead(s[0], rest, sep);
      assert s == [s[0]] + s[1..];
    }
  }

  /** An occurrence at i > 0 is an occurrence at i - 1 in the string without its first character. */
  lemma OccursShift(s: string, sep: string, i: int)
    requires 0 < i && |s| >= 1
    ensures OccursAt(s, sep, i) <==> OccursAt(s[1..], sep, i - 1)
  {
    if i + |sep| <= |s| {
      var a, b := s[i..i + |sep|], s[1..][i - 1..i - 1 + |sep|];
      assert |a| == |b| && forall k :: 0 <= k < |a| ==> a[k] == s[i + k] == b[k];
      assert a == b;
    }
  }

  /** Split cuts at the leftmost occurrence: when there is more than one
      piece, `sep` occurs right after the first piece, nowhere earlier, and
      the other pieces are the split of what follows that occurrence; with a
      single piece, the piece is the whole string. */
  lemma {:induction false} SplitLeftmost(s: string, sep: string)
    requires sep != []
    ensures var r := Split(s, sep);
            |r| == 1 ==> r[0] == s
    ensures var r := Split(s, sep);
            |r| > 1 ==>
              && OccursAt(s, sep, |r[0]|)
              && (forall i :: 0 <= i < |r[0]| ==> !OccursAt(s, sep, i))
              && r[1..] == Split(s[|r[0]| + |sep|..], sep)
    decreases |s|
  {
    SplitRest(s, sep);
    SplitFirstCut(s, sep);
  }

  /** After the first piece and the separator that ends it, the rest of the
      string splits into the other pieces. */
  lemma {:induction false} SplitRest(s: string, sep: string)
    requires sep != []
    ensures var r := Split(s, sep);
            |r| == 1 ==> r[0] == s
    ensures var r := Split(s, sep);
            |r| > 1 ==> |r[0]| + |sep| <= |s| && r[1..] == Split(s[|r[0]| + |sep|..], sep)
    decreases |s|
  {
    if |s| >= |sep| {
      var r := Split(s, sep);
      if s[..|sep|] == sep {
        var rest := Split(s[|sep|..], sep);
        assert r == [[]] + rest;
        assert r[1..] == rest;
      } else {
        SplitRest(s[1..], sep);
        var rest := Split(s[1..], sep);
        assert r == [[s[0]] + rest[0]] + rest[1..];
        if |r| == 1 {
          assert s == [s[0]] + s[1..];
        } else {
          var t, t' := s[|r[0]| + |sep|..], s[1..][|rest[0]| + |sep|..];
          assert t == t';
          assert r[1..] == rest[1..];
        }
      }
    }
  }

  /** The first piece ends at the leftmost occurrence of the separator. */
  lemma {:induction false} SplitFirstCut(s: string, sep: string)
    requires sep != []
    ensures var r := Split(s, sep);
            |r| > 1 ==> OccursAt(s, sep, |r[0]|) && forall i :: 0 <= i < |r[0]| ==> !OccursAt(s, sep, i)
    decreases |s|
  {
    if |s| >= |sep| && s[..|sep|] != sep {
      SplitFirstCut(s[1..], sep);
      var r, rest := Split(s, sep), Split(s[1..], sep);
      assert r == [[s[0]] + rest[0]] + rest[1..];
      if |rest| > 1 {
        SplitLeftmostStep(s, sep, rest);
      }
    }
  }

  /** The step of SplitLeftmost when `s` does not start with `sep` and the
      rest of `s` splits into more than one piece. */
  lemma SplitLeftmostStep(s: string, sep: string, rest: seq<string>)
    requires sep != [] && |s| >= 1 && !OccursAt(s, sep, 0)
    requires |rest| > 1
    requires OccursAt(s[1..], sep, |rest[0]|)
    requires forall i :: 0 <= i < |rest[0]| ==> !OccursAt(s[1..], sep, i)
    ensures OccursAt(s, sep, |rest[0]| + 1)
    ensures forall i :: 0 <= i < |rest[0]| + 1 ==> !OccursAt(s, sep, i)
  {
    var n := |rest[0]|;
    OccursShift(s, sep, n + 1);
    forall i | 0 < i < n + 1 ensures !OccursAt(s, sep, i) {
      OccursShift(s, sep, i);
    }
  }

  /** No piece of a split still contains the separator. */
  lemma {:induction false} SplitPiecesFree(s: string, sep: string)
    requires sep != []
    ensures forall k :: 0 <= k < |Split(s, sep)| ==> !Contains(Split(s, sep)[k], sep)
    decreases |s|
  {
    var r := Split(s, sep);
    if |s| < |sep| {
    } else if s[..|sep|] == sep {
      SplitPiecesFree(s[|sep|..], sep);
      var rest := Split(s[|sep|..], sep);
      assert r == [[]] + rest;
      forall k | 0 <= k < |r| ensures !Contains(r[k], sep) {
        if k > 0 { assert r[k] == rest[k - 1]; }
      }
    } else {
      SplitPiecesFree(s[1..], sep);
      var rest := Split(s[1..], sep);
      var head := [s[0]] + rest[0];
      assert r == [head] + rest[1..];
      assert head <= s;
      forall i | 0 <= i <= |head| ensures !OccursAt(head, sep, i) {
        if i == 0 {
          if |sep| <= |head| { assert head[..|sep|] == s[..|sep|]; }
        } else if i + |sep| <= |head| {
          assert head[i..i + |sep|] == rest[0][i - 1..i - 1 + |sep|];
          assert !OccursAt(rest[0], sep, i - 1);
        }
      }
      forall k | 0 <= k < |r| ensures !Contains(r[k], sep) {
        if k > 0 { assert r[k] == rest[k]; }
      }
    }
  }

  /** Splitting a string that holds no separator gives the string back whole. */
  lemma {:induction false} SplitNoSeparator(p: string, c: char)
    requires c !in p
    ensures Split(p, [c]) == [p]
    decreases |p|
  {
    if |p| >= 1 {
      assert p[..1] == [p[0]];
      SplitNoSeparator(p[1..], c);
      assert p == [p[0]] + p[1..];
    }
  }

  lemma {:induction false} SplitAtFirst(p: string, c: char, rest: string)
    requires c !in p
    ensures Split(p + [c] + rest, [c]) == [p] + Split(rest, [c])
    decreases |p|
  {
    var s := p + [c] + rest;
    if |p| == 0 {
      assert s[..1] == [c];
      assert s[1..] == rest;
    } else {
      assert s[..1] == [p[0]];
      assert s[1..] == p[1..] + [c] + rest;
      SplitAtFirst(p[1..], c, rest);
      assert p == [p[0]] + p[1..];
    }
  }

  /** For a one-character separator that none of the parts contains,
      splitting the join gives back the parts. */
  lemma {:induction false} SplitJoin(parts: seq<string>, c: char)
    requires |parts| >= 1
    requires forall k :: 0 <= k < |parts| ==> c !in parts[k]
    ensures Split(Join(parts, [c]), [c]) == parts
    decreases |parts|
  {
    if |parts| == 1 {
      SplitNoSeparator(parts[0], c);
    } else {
      SplitJoin(parts[1..], c);
      SplitAtFirst(parts[0], c, Join(parts[1..], [c]));
      assert parts == [parts[0]] + parts[1..];
    }
  }

  /** Every character of a joined string comes from a part or the separator. */
  lemma {:induction false} JoinChars(parts: seq<string>, sep: string, k: nat, x: char)
    requires k < |parts| && x in parts[k]
    ensures x in Join(parts, sep)
    decreases |parts|
  {
    if k > 0 {
      JoinChars(parts[1..], sep, k - 1, x);
    }
  }
}
