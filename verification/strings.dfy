/**
 * String helpers with JavaScript semantics: `Array.prototype.join` and
 * `String.prototype.split` with a non-empty string separator.
 */
module Strings {

  /** `sep` occurs in `s` starting at position `i`. */
  predicate OccursAt(s: string, sep: string, i: int) {
    0 <= i && i + |sep| <= |s| && s[i..i + |sep|] == sep
  }

  /** `sep` occurs somewhere in `s`. */
  predicate Contains(s: string, sep: string) {
    exists i | 0 <= i <= |s| - |sep| :: OccursAt(s, sep, i)
  }

  /**
   * No proper non-empty prefix of `sep` is also a suffix of it, so no
   * occurrence of `sep` can straddle the end of an earlier one.
   */
  predicate Unbordered(sep: string) {
    forall k :: 0 < k < |sep| ==> sep[..k] != sep[|sep| - k..]
  }

  /** `parts.join(sep)`: the parts in order with `sep` between neighbours. */
  function Join(parts: seq<string>, sep: string): (r: string)
    ensures |parts| == 0 ==> r == ""
    ensures |parts| >= 1 ==> parts[0] <= r
    ensures |parts| >= 1 ==> |r| >= |parts[|parts| - 1]|
                             && r[|r| - |parts[|parts| - 1]|..] == parts[|parts| - 1]
    ensures |parts| >= 2 ==> OccursAt(r, sep, |parts[0]|)
  {
    if |parts| == 0 then ""
    else if |parts| == 1 then parts[0]
    else parts[0] + sep + Join(parts[1..], sep)
  }

  /** Glues `t` to the front of the first piece of `pieces`. */
  function Prepend(t: string, pieces: seq<string>): (r: seq<string>)
    requires |pieces| >= 1
    ensures |r| == |pieces| && r[0] == t + pieces[0] && r[1..] == pieces[1..]
  {
    [t + pieces[0]] + pieces[1..]
  }

  /**
   * `s.split(sep)`: scanning left to right, every occurrence of `sep` that
   * starts at or after the end of the previous cut is cut out; the text
   * between cuts forms the pieces. The empty string splits into `[""]`.
   */
  function Split(s: string, sep: string): (pieces: seq<string>)
    requires |sep| > 0
    ensures |pieces| >= 1
    decreases |s|
  {
    if |s| < |sep| then [s]
    else if s[..|sep|] == sep then [""] + Split(s[|sep|..], sep)
    else Prepend(s[..1], Split(s[1..], sep))
  }

  /**
   * `Split` cuts at the leftmost occurrence: the first piece runs up to the
   * first occurrence of `sep`, and the remaining pieces are the split of the
   * text after that occurrence.
   */
  lemma {:induction false} SplitCutsLeftmost(s: string, sep: string)
    requires |sep| > 0
    ensures var pieces := Split(s, sep);
      |pieces| > 1 ==>
        && (forall i :: 0 <= i < |pieces[0]| ==> !OccursAt(s, sep, i))
        && OccursAt(s, sep, |pieces[0]|)
        && pieces[1..] == Split(s[|pieces[0]| + |sep|..], sep)
    decreases |s|
  {
    var pieces := Split(s, sep);
    if |s| < |sep| {
    } else if s[..|sep|] == sep {
      assert pieces == [""] + Split(s[|sep|..], sep);
      assert OccursAt(s, sep, 0);
    } else {
      var rest := Split(s[1..], sep);
      assert pieces == Prepend(s[..1], rest);
      if |rest| > 1 {
        SplitCutsLeftmost(s[1..], sep);
        var n := |rest[0]|;
        OccurrenceShifts(s, sep, n + 1);
        assert s[1..][n + |sep|..] == s[n + 1 + |sep|..];
        forall i | 1 <= i < n + 1 ensures !OccursAt(s, sep, i) {
          OccurrenceShifts(s, sep, i);
        }
        assert !OccursAt(s, sep, 0);
      }
    }
  }

  /** Dropping the first character moves every occurrence one place to the left. */
  lemma OccurrenceShifts(s: string, sep: string, i: int)
    requires 1 <= i && |s| >= 1
    ensures OccursAt(s, sep, i) <==> OccursAt(s[1..], sep, i - 1)
  {
    if i + |sep| <= |s| {
      assert s[1..][i - 1..i - 1 + |sep|] == s[i..i + |sep|];
    }
  }

  lemma JoinPair(a: string, b: string, sep: string)
    ensures Join([a, b], sep) == a + sep + b
  {
    assert [a, b][1..] == [b];
  }

  lemma {:induction false} JoinPrepend(t: string, pieces: seq<string>, sep: string)
    requires |pieces| >= 1
    ensures Join(Prepend(t, pieces), sep) == t + Join(pieces, sep)
  {
    var p := Prepend(t, pieces);
    if |pieces| == 1 {
      assert p == [t + pieces[0]];
    } else {
      var tail := Join(pieces[1..], sep);
      assert p[1..] == pieces[1..];
      assert Join(p, sep) == (t + pieces[0]) + sep + tail;
      assert Join(pieces, sep) == pieces[0] + sep + tail;
      assert (t + pieces[0]) + sep + tail == t + (pieces[0] + sep + tail);
    }
  }

  /** Joining the pieces with the separator gives back the split text. */
  lemma {:induction false} JoinSplit(s: string, sep: string)
    requires |sep| > 0
    ensures Join(Split(s, sep), sep) == s
    decreases |s|
  {
    if |s| < |sep| {
    } else if s[..|sep|] == sep {
      var rest := Split(s[|sep|..], sep);
      var pieces := [""] + rest;
      assert Split(s, sep) == pieces;
      JoinSplit(s[|sep|..], sep);
      assert pieces[0] == "" && pieces[1..] == rest && |pieces| > 1;
      assert Join(pieces, sep) == "" + sep + Join(rest, sep);
      assert s == sep + s[|sep|..];
    } else {
      var rest := Split(s[1..], sep);
      assert Split(s, sep) == Prepend(s[..1], rest);
      JoinSplit(s[1..], sep);
      JoinPrepend(s[..1], rest, sep);
      assert s == s[..1] + s[1..];
    }
  }

  /** The first piece is a prefix of the text. */
  lemma {:induction false} SplitHeadIsPrefix(s: string, sep: string)
    requires |sep| > 0
    ensures Split(s, sep)[0] <= s
    decreases |s|
  {
    if |s| < |sep| {
    } else if s[..|sep|] == sep {
    } else {
      SplitHeadIsPrefix(s[1..], sep);
      assert s == s[..1] + s[1..];
    }
  }

  /** No piece contains the separator. */
  lemma {:induction false} SplitPiecesAreClean(s: string, sep: string)
    requires |sep| > 0
    ensures forall k :: 0 <= k < |Split(s, sep)| ==> !Contains(Split(s, sep)[k], sep)
    decreases |s|
  {
    var pieces := Split(s, sep);
    if |s| < |sep| {
      assert pieces == [s];
      assert !Contains(s, sep);
    } else if s[..|sep|] == sep {
      var rest := Split(s[|sep|..], sep);
      SplitPiecesAreClean(s[|sep|..], sep);
      assert pieces == [""] + rest;
      forall k | 0 <= k < |pieces| ensures !Contains(pieces[k], sep) {
        if k == 0 {
          assert pieces[0] == "";
        } else {
          assert pieces[k] == rest[k - 1];
        }
      }
    } else {
      var rest := Split(s[1..], sep);
      SplitPiecesAreClean(s[1..], sep);
      SplitHeadIsPrefix(s[1..], sep);
      var head := s[..1] + rest[0];
      assert head <= s;
      forall k | 0 <= k < |pieces| ensures !Contains(pieces[k], sep) {
        if k == 0 {
          assert pieces[0] == head;
          forall i | 0 <= i <= |head| - |sep| ensures !OccursAt(head, sep, i) {
            if i == 0 {
              assert head[..|sep|] == s[..|sep|];
            } else {
              assert head[i..i + |sep|] == rest[0][i - 1..i - 1 + |sep|];
              assert !OccursAt(rest[0], sep, i - 1);
            }
          }
        } else {
          assert pieces[k] == rest[k];
        }
      }
    }
  }

  /** Text that does not contain the separator is a single piece. */
  lemma {:induction false} SplitWithoutSeparator(s: string, sep: string)
    requires |sep| > 0
    requires !Contains(s, sep)
    ensures Split(s, sep) == [s]
    decreases |s|
  {
    if |s| < |sep| {
    } else {
      assert !OccursAt(s, sep, 0);
      assert s[..|sep|] != sep;
      forall i | 0 <= i <= |s[1..]| - |sep| ensures !OccursAt(s[1..], sep, i) {
        assert s[1..][i..i + |sep|] == s[i + 1..i + 1 + |sep|];
        assert !OccursAt(s, sep, i + 1);
      }
      SplitWithoutSeparator(s[1..], sep);
      assert s == s[..1] + s[1..];
    }
  }

  /** The text is a single piece exactly when it does not contain the separator. */
  lemma SplitIsSingleIff(s: string, sep: string)
    requires |sep| > 0
    ensures |Split(s, sep)| == 1 <==> !Contains(s, sep)
    ensures |Split(s, sep)| == 1 ==> Split(s, sep) == [s]
  {
    if !Contains(s, sep) {
      SplitWithoutSeparator(s, sep);
    }
    if |Split(s, sep)| == 1 {
      JoinSplit(s, sep);
      assert Split(s, sep) == [s];
      SplitPiecesAreClean(s, sep);
    }
  }

  /** Text starting with the separator: an empty first piece, then the rest split. */
  lemma SplitAfterSeparator(u: string, sep: string)
    requires |sep| > 0
    ensures Split(sep + u, sep) == [""] + Split(u, sep)
  {
    assert (sep + u)[..|sep|] == sep;
    assert (sep + u)[|sep|..] == u;
  }

  /**
   * When no occurrence of `sep` starts inside `t`, splitting `t + w` only
   * glues `t` onto the first piece of `w`'s split.
   */
  lemma {:induction false} SplitGluesPrefix(t: string, w: string, sep: string)
    requires |sep| > 0
    requires forall i :: 0 <= i < |t| ==> !OccursAt(t + w, sep, i)
    ensures Split(t + w, sep) == Prepend(t, Split(w, sep))
    decreases |t|
  {
    var s := t + w;
    var rw := Split(w, sep);
    if |t| == 0 {
      assert s == w;
      assert t + rw[0] == rw[0];
      assert Prepend(t, rw) == [rw[0]] + rw[1..] == rw;
    } else if |s| < |sep| {
      assert Split(w, sep) == [w];
    } else {
      assert !OccursAt(s, sep, 0);
      assert s[1..] == t[1..] + w;
      forall i | 0 <= i < |t[1..]| ensures !OccursAt(t[1..] + w, sep, i) {
        assert !OccursAt(s, sep, i + 1);
        if i + |sep| <= |s[1..]| {
          assert s[1..][i..i + |sep|] == s[i + 1..i + 1 + |sep|];
        }
      }
      SplitGluesPrefix(t[1..], w, sep);
      assert t == s[..1] + t[1..];
      assert s[..1] + (t[1..] + rw[0]) == t + rw[0];
      assert Prepend(s[..1], Prepend(t[1..], rw)) == Prepend(t, rw);
    }
  }

  /** With an unbordered separator, no occurrence starts inside `p` in `p + sep + j`, given `p` is free of it. */
  lemma NoOccurrenceBeforeSeparator(p: string, sep: string, j: string)
    requires |sep| > 0 && Unbordered(sep) && !Contains(p, sep)
    ensures forall i :: 0 <= i < |p| ==> !OccursAt(p + (sep + j), sep, i)
  {
    var s := p + (sep + j);
    forall i | 0 <= i < |p| ensures !OccursAt(s, sep, i) {
      if i + |sep| <= |p| {
        assert s[i..i + |sep|] == p[i..i + |sep|];
        assert !OccursAt(p, sep, i);
      } else if i + |sep| <= |s| {
        // the occurrence would straddle the end of p: sep's tail from k on
        // would equal its own head, a border of length |sep| - k
        var k := |p| - i;
        assert 0 < k < |sep|;
        var window := s[i..i + |sep|];
        assert window[k..] == sep[..|sep| - k];
        assert sep[..|sep| - k] != sep[|sep| - (|sep| - k)..];
        assert sep[|sep| - (|sep| - k)..] == sep[k..];
        assert window[k..] != sep[k..];
      }
    }
  }

  /**
   * With an unbordered separator, splitting a join of separator-free parts
   * gives the parts back.
   */
  lemma {:induction false} SplitJoin(parts: seq<string>, sep: string)
    requires |sep| > 0 && Unbordered(sep)
    requires |parts| >= 1
    requires forall k :: 0 <= k < |parts| ==> !Contains(parts[k], sep)
    ensures Split(Join(parts, sep), sep) == parts
  {
    if |parts| == 1 {
      SplitWithoutSeparator(parts[0], sep);
    } else {
      var j := Join(parts[1..], sep);
      assert Join(parts, sep) == parts[0] + (sep + j);
      NoOccurrenceBeforeSeparator(parts[0], sep, j);
      SplitGluesPrefix(parts[0], sep + j, sep);
      SplitAfterSeparator(j, sep);
      SplitJoin(parts[1..], sep);
      assert parts[0] + "" == parts[0];
      assert Prepend(parts[0], [""] + parts[1..]) == [parts[0]] + parts[1..] == parts;
    }
  }
}
