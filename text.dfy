/**
 * The two string primitives the backend leans on, with Python's semantics:
 * `sep.join(parts)` and `s.split(c)` for a one-character separator.
 */
module Text {

  /** `sep.join(parts)`: the parts in order, `sep` between neighbours, nothing at either end. */
  function Join(sep: string, parts: seq<string>): (r: string)
    ensures |parts| >= 1 ==> |r| == TotalLength(parts) + (|parts| - 1) * |sep|
    decreases |parts|
  {
    if |parts| == 0 then ""
    else if |parts| == 1 then parts[0]
    else parts[0] + sep + Join(sep, parts[1..])
  }

  /**
   * `s.split(c)`: the maximal runs between occurrences of `c`. Like Python,
   * it always yields at least one piece (`"".split(",") == [""]`).
   */
  function Split(s: string, c: char): (pieces: seq<string>)
    ensures |pieces| >= 1
    ensures forall i :: 0 <= i < |pieces| ==> c !in pieces[i]
    decreases |s|
  {
    if |s| == 0 then [""]
    else
      var rest := Split(s[1..], c);
      if s[0] == c then [""] + rest
      else [[s[0]] + rest[0]] + rest[1..]
  }

  /** `needle in hay` for two strings: a contiguous occurrence. */
  predicate Occurs(needle: string, hay: string)
    decreases |hay|
  {
    |needle| <= |hay| && (hay[..|needle|] == needle || Occurs(needle, hay[1..]))
  }

  /** The needle stands in the haystack starting at offset i. */
  predicate FoundAt(needle: string, hay: string, i: int)
  {
    0 <= i && i + |needle| <= |hay| && hay[i..i + |needle|] == needle
  }

  /** Occurs holds of any string that has the needle at a known offset. */
  lemma {:induction false} OccursAt(needle: string, hay: string, i: nat)
    requires FoundAt(needle, hay, i)
    ensures Occurs(needle, hay)
    decreases i
  {
    if i > 0 {
      assert hay[1..][i - 1..i - 1 + |needle|] == hay[i..i + |needle|];
      OccursAt(needle, hay[1..], i - 1);
    }
  }

  /** Occurs finds an offset where the needle stands, whenever it holds. */
  lemma {:induction false} OccursFound(needle: string, hay: string) returns (i: nat)
    requires Occurs(needle, hay)
    ensures FoundAt(needle, hay, i)
    decreases |hay|
  {
    if hay[..|needle|] == needle {
      i := 0;
    } else {
      var j := OccursFound(needle, hay[1..]);
      assert hay[1..][j..j + |needle|] == hay[j + 1..j + 1 + |needle|];
      i := j + 1;
    }
  }

  /** `needle in hay` holds exactly when the needle stands at some offset of the haystack. */
  lemma OccursIff(needle: string, hay: string)
    ensures Occurs(needle, hay) <==> exists i :: FoundAt(needle, hay, i)
  {
    if Occurs(needle, hay) {
      var i := OccursFound(needle, hay);
    }
    if i :| FoundAt(needle, hay, i) {
      OccursAt(needle, hay, i);
    }
  }

  /** Appending one more part adds exactly one separator before it. */
  lemma {:induction false} JoinSnoc(sep: string, parts: seq<string>, last: string)
    requires |parts| >= 1
    ensures Join(sep, parts + [last]) == Join(sep, parts) + sep + last
    decreases |parts|
  {
    var all := parts + [last];
    if |parts| == 1 {
      assert all[1..] == [last];
    } else {
      assert all[1..] == parts[1..] + [last];
      JoinSnoc(sep, parts[1..], last);
    }
  }

  /** No leading and no trailing separator: the join starts with the first part and ends with the last. */
  lemma {:induction false} JoinEnds(sep: string, parts: seq<string>)
    requires |parts| >= 1
    ensures var j := Join(sep, parts);
      |j| >= |parts[0]| + |parts[|parts| - 1]| - (if |parts| == 1 then |parts[0]| else 0)
      && j[..|parts[0]|] == parts[0]
      && j[|j| - |parts[|parts| - 1]|..] == parts[|parts| - 1]
    decreases |parts|
  {
    if |parts| > 1 {
      JoinEnds(sep, parts[1..]);
    }
  }

  /** The summed length of the parts. */
  function TotalLength(parts: seq<string>): nat
    decreases |parts|
  {
    if |parts| == 0 then 0 else |parts[0]| + TotalLength(parts[1..])
  }

  /** Splitting a string without the separator gives the string back as the only piece. */
  lemma {:induction false} SplitWithoutSeparator(s: string, c: char)
    requires c !in s
    ensures Split(s, c) == [s]
    decreases |s|
  {
    if |s| > 0 {
      SplitWithoutSeparator(s[1..], c);
      assert [s[0]] + s[1..] == s;
    }
  }

  /** A separator right after a separator-free head cuts off exactly that head. */
  lemma {:induction false} SplitAtFirst(head: string, c: char, tail: string)
    requires c !in head
    ensures Split(head + [c] + tail, c) == [head] + Split(tail, c)
    decreases |head|
  {
    var s := head + [c] + tail;
    if |head| == 0 {
      assert s[0] == c && s[1..] == tail;
    } else {
      assert s[0] == head[0] != c;
      assert s[1..] == head[1..] + [c] + tail;
      SplitAtFirst(head[1..], c, tail);
      assert [s[0]] + head[1..] == head;
    }
  }

  /** Split inverts Join: parts free of the separator come back unchanged. */
  lemma {:induction false} SplitJoin(parts: seq<string>, c: char)
    requires |parts| >= 1
    requires forall i :: 0 <= i < |parts| ==> c !in parts[i]
    ensures Split(Join([c], parts), c) == parts
    decreases |parts|
  {
    if |parts| == 1 {
      SplitWithoutSeparator(parts[0], c);
    } else {
      SplitJoin(parts[1..], c);
      SplitAtFirst(parts[0], c, Join([c], parts[1..]));
      assert [parts[0]] + parts[1..] == parts;
    }
  }

  /** Join inverts Split: gluing the pieces back with the separator restores the string. */
  lemma {:induction false} JoinSplit(s: string, c: char)
    ensures Join([c], Split(s, c)) == s
    decreases |s|
  {
    if |s| > 0 {
      var rest := Split(s[1..], c);
      JoinSplit(s[1..], c);
      if s[0] == c {
        assert Join([c], [""] + rest) == "" + [c] + Join([c], rest);
      } else if |rest| == 1 {
        assert Join([c], [[s[0]] + rest[0]] + rest[1..]) == [s[0]] + rest[0];
      } else {
        var pieces := [[s[0]] + rest[0]] + rest[1..];
        assert pieces[1..] == rest[1..];
        assert Join([c], pieces) == [s[0]] + rest[0] + [c] + Join([c], rest[1..]);
      }
    }
  }

  /** The number of pieces is one more than the number of separators. */
  lemma {:induction false} SplitCount(s: string, c: char)
    ensures |Split(s, c)| == multiset(s)[c] + 1
    decreases |s|
  {
    if |s| > 0 {
      SplitCount(s[1..], c);
      assert s == [s[0]] + s[1..];
      assert multiset(s) == multiset{s[0]} + multiset(s[1..]);
    }
  }
}
