/** Trimming and searching, shared by the bank's amounts and the CSV reader. */
module Strings {
  import opened Wrappers

  function TrimLeft(s: string, space: char -> bool): (r: string)
    ensures r == "" || !space(r[0])
  {
    if s == "" then "" else if space(s[0]) then TrimLeft(s[1..], space) else s
  }

  function TrimRight(s: string, space: char -> bool): (r: string)
    ensures |r| <= |s|
    ensures r == "" || !space(r[|r| - 1])
  {
    if s == "" then "" else if space(s[|s| - 1]) then TrimRight(s[..|s| - 1], space) else s
  }

  function Trim(s: string, space: char -> bool): string {
    TrimRight(TrimLeft(s, space), space)
  }

  predicate Trimmed(s: string, space: char -> bool) {
    s != "" ==> !space(s[0]) && !space(s[|s| - 1])
  }

  /** Trimming leaves a string alone exactly when it has no outer white space. */
  lemma TrimFixpoint(s: string, space: char -> bool)
    ensures Trim(s, space) == s <==> Trimmed(s, space)
  {
    var left := TrimLeft(s, space);
    if Trim(s, space) == s && s != "" {
      TrimLeftShrinks(s, space);
    }
  }

  lemma {:induction false} TrimLeftShrinks(s: string, space: char -> bool)
    ensures |TrimLeft(s, space)| <= |s|
    ensures s != "" && space(s[0]) ==> |TrimLeft(s, space)| < |s|
  {
    if s != "" && space(s[0]) {
      TrimLeftShrinks(s[1..], space);
    }
  }

  /** The text before the first `c`, and the text after it when there is one. */
  function SplitFirst(s: string, c: char): (string, Option<string>) {
    if s == "" then ("", None)
    else if s[0] == c then ("", Some(s[1..]))
    else
      var (front, back) := SplitFirst(s[1..], c);
      ([s[0]] + front, back)
  }

  lemma {:induction false} SplitJoined(front: string, c: char, back: string)
    requires forall i :: 0 <= i < |front| ==> front[i] != c
    ensures SplitFirst(front, c) == (front, None)
    ensures SplitFirst(front + [c] + back, c) == (front, Some(back))
  {
    if front == "" {
      assert (front + [c] + back)[1..] == back;
    } else {
      SplitJoined(front[1..], c, back);
      assert (front + [c] + back)[1..] == front[1..] + [c] + back;
      assert front == [front[0]] + front[1..];
    }
  }

  lemma {:induction false} TrimRightKeepsFirst(s: string, space: char -> bool)
    ensures TrimRight(s, space) != "" ==> s != "" && TrimRight(s, space)[0] == s[0]
  {
    if s != "" && space(s[|s| - 1]) {
      TrimRightKeepsFirst(s[..|s| - 1], space);
    }
  }

  lemma {:induction false} SplitRejoins(s: string, c: char)
    ensures var (front, back) := SplitFirst(s, c);
            s == front + if back.Some? then [c] + back.value else ""
  {
    if s != "" && s[0] != c {
      SplitRejoins(s[1..], c);
      assert s == [s[0]] + s[1..];
    }
  }
}
