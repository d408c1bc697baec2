/** Splitting a string at a mark, and joining the parts again. */
module Splitting {
  /** s.split(mark) */
  function Split(s: string, mark: char): (parts: seq<string>)
    ensures parts != [] && forall i :: 0 <= i < |parts| ==> mark !in parts[i]
  {
    if s == "" then [""]
    else
      var rest := Split(s[1..], mark);
      if s[0] == mark then [""] + rest else [[s[0]] + rest[0]] + rest[1..]
  }

  /** mark.join(parts) */
  function JoinWith(parts: seq<string>, mark: char): string {
    if parts == [] then ""
    else if |parts| == 1 then parts[0]
    else parts[0] + [mark] + JoinWith(parts[1..], mark)
  }

  lemma {:induction false} JoinSplit(s: string, mark: char)
    ensures JoinWith(Split(s, mark), mark) == s
  {
    if s != "" {
      JoinSplit(s[1..], mark);
      var rest := Split(s[1..], mark);
      if s[0] == mark {
        assert ([""] + rest)[1..] == rest;
        assert JoinWith([""] + rest, mark) == "" + [mark] + JoinWith(rest, mark);
      } else if |rest| > 1 {
        assert ([[s[0]] + rest[0]] + rest[1..])[1..] == rest[1..];
        assert [s[0]] + rest[0] + [mark] + JoinWith(rest[1..], mark)
            == [s[0]] + (rest[0] + [mark] + JoinWith(rest[1..], mark));
      }
    }
  }

  lemma {:induction false} SplitOne(s: string, mark: char)
    requires mark !in s
    ensures Split(s, mark) == [s]
  {
    if s != "" {
      SplitOne(s[1..], mark);
      assert s == [s[0]] + s[1..];
    }
  }

  lemma {:induction false} SplitFirst(s: string, mark: char, rest: string)
    requires mark !in s
    ensures Split(s + [mark] + rest, mark) == [s] + Split(rest, mark)
  {
    var whole := s + [mark] + rest;
    if s == "" {
      assert whole[1..] == rest;
    } else {
      assert whole[1..] == s[1..] + [mark] + rest;
      SplitFirst(s[1..], mark, rest);
      assert s == [s[0]] + s[1..];
    }
  }

  /** What follows the last mark is the last part. */
  lemma {:induction false} SplitLast(s: string, mark: char, last: string)
    requires mark !in last
    ensures Split(s + [mark] + last, mark) == Split(s, mark) + [last]
  {
    var whole := s + [mark] + last;
    if s == "" {
      assert whole[1..] == last;
      SplitOne(last, mark);
    } else {
      assert whole[1..] == s[1..] + [mark] + last;
      SplitLast(s[1..], mark, last);
    }
  }

  /** Parts without the mark come back. */
  lemma {:induction false} SplitJoin(parts: seq<string>, mark: char)
    requires parts != [] && forall i :: 0 <= i < |parts| ==> mark !in parts[i]
    ensures Split(JoinWith(parts, mark), mark) == parts
  {
    if |parts| == 1 {
      SplitOne(parts[0], mark);
    } else {
      SplitJoin(parts[1..], mark);
      SplitFirst(parts[0], mark, JoinWith(parts[1..], mark));
      assert parts == [parts[0]] + parts[1..];
    }
  }
}
