/**
 Python's `str.split(sep)` and `sep.join(parts)` on strings, for a non-empty
 separator. `Split` scans left to right and cuts at the leftmost occurrence of
 the separator each time, so occurrences never overlap; it never returns an
 empty list, and splitting the empty string gives `[""]`.
 */
module StrSplit {

  /** The separator the address mapping splits on. */
  const Sep: string := ", "

  function Split(s: string, sep: string): (parts: seq<string>)
    requires |sep| > 0
    ensures |parts| >= 1
    ensures |s| < |sep| ==> parts == [s]
    decreases |s|
  {
    if |s| < |sep| then [s]
    else if s[..|sep|] == sep then [""] + Split(s[|sep|..], sep)
    else
      var rest := Split(s[1..], sep);
      [[s[0]] + rest[0]] + rest[1..]
  }

  function Join(parts: seq<string>, sep: string): (s: string)
    ensures |parts| > 0 ==> parts[0] <= s
    decreases |parts|
  {
    if |parts| == 0 then ""
    else if |parts| == 1 then parts[0]
    else parts[0] + sep + Join(parts[1..], sep)
  }

  /** Number of positions at which ", " occurs in `s`. */
  function CountSep(s: string): nat
    decreases |s|
  {
    if |s| < |Sep| then 0
    else (if s[..|Sep|] == Sep then 1 else 0) + CountSep(s[1..])
  }

  /** Prepending a character to the first part prepends it to the joined string. */
  lemma JoinConsHead(c: char, parts: seq<string>, sep: string)
    requires |parts| >= 1
    ensures Join([[c] + parts[0]] + parts[1..], sep) == [c] + Join(parts, sep)
  {
    var ps := [[c] + parts[0]] + parts[1..];
    if |parts| > 1 {
      assert ps[1..] == parts[1..];
    }
  }

  /** Joining the parts of a split gives back the original string. */
  lemma {:induction false} JoinSplit(s: string, sep: string)
    requires |sep| > 0
    ensures Join(Split(s, sep), sep) == s
    decreases |s|
  {
    if |s| < |sep| {
    } else if s[..|sep|] == sep {
      var rest := Split(s[|sep|..], sep);
      JoinSplit(s[|sep|..], sep);
      assert Split(s, sep)[1..] == rest;
      assert s == s[..|sep|] + s[|sep|..];
    } else {
      var rest := Split(s[1..], sep);
      JoinSplit(s[1..], sep);
      JoinConsHead(s[0], rest, sep);
      assert s == [s[0]] + s[1..];
    }
  }

  /** Joining is associative over a cut of the part list. */
  lemma {:induction false} JoinAppend(a: seq<string>, b: seq<string>, sep: string)
    requires |a| > 0 && |b| > 0
    ensures Join(a + b, sep) == Join(a, sep) + sep + Join(b, sep)
    decreases |a|
  {
    if |a| == 1 {
      assert (a + b)[1..] == b;
    } else {
      JoinAppend(a[1..], b, sep);
      assert (a + b)[1..] == a[1..] + b;
    }
  }

  /** The first part of a split is a prefix of the input. */
  lemma SplitHeadPrefix(s: string, sep: string)
    requires |sep| > 0
    ensures Split(s, sep)[0] <= s
  {
    JoinSplit(s, sep);
  }

  /** Splitting on ", " yields one part more than there are occurrences of ", ". */
  lemma {:induction false} SplitCount(s: string)
    ensures |Split(s, Sep)| == CountSep(s) + 1
    decreases |s|
  {
    if |s| < |Sep| {
    } else if s[..|Sep|] == Sep {
      SplitCount(s[|Sep|..]);
      var t := s[1..];
      assert t[0] == ' ';
      if |t| >= |Sep| {
        assert t[..|Sep|] != Sep;
        assert t[1..] == s[|Sep|..];
      }
    } else {
      SplitCount(s[1..]);
    }
  }

  /** No part produced by splitting on ", " contains ", ". */
  lemma {:induction false} SplitPartsAvoidSep(s: string)
    ensures forall k :: 0 <= k < |Split(s, Sep)| ==> CountSep(Split(s, Sep)[k]) == 0
    decreases |s|
  {
    var parts := Split(s, Sep);
    if |s| < |Sep| {
      assert CountSep(s) == 0;
    } else if s[..|Sep|] == Sep {
      SplitPartsAvoidSep(s[|Sep|..]);
      assert parts[1..] == Split(s[|Sep|..], Sep);
      forall k | 0 <= k < |parts|
        ensures CountSep(parts[k]) == 0
      {
        if k > 0 {
          assert parts[k] == Split(s[|Sep|..], Sep)[k - 1];
        }
      }
    } else {
      var rest := Split(s[1..], Sep);
      SplitPartsAvoidSep(s[1..]);
      SplitHeadPrefix(s[1..], Sep);
      var head := [s[0]] + rest[0];
      assert head[1..] == rest[0];
      if |head| >= |Sep| {
        assert head[..|Sep|] == s[..|Sep|];
      }
      assert CountSep(head) == 0;
      forall k | 0 <= k < |parts|
        ensures CountSep(parts[k]) == 0
      {
        if k > 0 {
          assert parts[k] == rest[k];
        }
      }
    }
  }

  /** Splitting at a first ", " that follows a separator-free prefix cuts exactly there. */
  lemma {:induction false} SplitAtFirstSep(p: string, q: string)
    requires CountSep(p) == 0
    ensures Split(p + Sep + q, Sep) == [p] + Split(q, Sep)
    decreases |p|
  {
    var s := p + Sep + q;
    if |p| == 0 {
      assert s == Sep + q;
      assert s[..|Sep|] == Sep && s[|Sep|..] == q;
    } else {
      assert s[1] != Sep[1] || s[0] != Sep[0] by {
        if |p| == 1 {
          assert s[1] == ',';
        } else {
          assert p[..|Sep|] != Sep;
          assert s[..|Sep|] == p[..|Sep|];
        }
      }
      assert s[..|Sep|] != Sep;
      assert s[1..] == p[1..] + Sep + q;
      SplitAtFirstSep(p[1..], q);
      assert [p[0]] + p[1..] == p;
    }
  }

  /**
   The converse round trip: joining parts that contain no ", " with ", " and
   splitting the result again gives back the parts.
   */
  lemma {:induction false} SplitJoin(parts: seq<string>)
    requires |parts| >= 1
    requires forall k :: 0 <= k < |parts| ==> CountSep(parts[k]) == 0
    ensures Split(Join(parts, Sep), Sep) == parts
    decreases |parts|
  {
    if |parts| == 1 {
      SplitCount(parts[0]);
      JoinSplit(parts[0], Sep);
      assert Split(parts[0], Sep)[0] == Join(Split(parts[0], Sep), Sep);
    } else {
      SplitJoin(parts[1..]);
      SplitAtFirstSep(parts[0], Join(parts[1..], Sep));
      assert [parts[0]] + parts[1..] == parts;
    }
  }

  /** A string without a comma contains no ", ". */
  lemma {:induction false} NoCommaNoSep(s: string)
    requires forall i :: 0 <= i < |s| ==> s[i] != ','
    ensures CountSep(s) == 0
    decreases |s|
  {
    if |s| >= |Sep| {
      assert s[..|Sep|][0] != Sep[0];
      NoCommaNoSep(s[1..]);
    }
  }
}
