/** The keyword matcher of the monitor: case-insensitive substring search of
    a title against an ordered keyword list, earliest keyword first. */
module Keywords {
  import opened Wrappers
  import opened Text

  /** The keywords the monitor ships with, most specific first. */
  const Shipped: seq<string> := ["특정 장애인 단체 집회시위", "장애인", "집회", "시위"]

  /** The lowercased keyword occurs in the lowercased title. */
  predicate Matches(keyword: string, title: string)
  {
    Contains(Lower(title), Lower(keyword))
  }

  /** Keyword `i` matches and no earlier keyword does. */
  ghost predicate IsFirstMatch(keywords: seq<string>, title: string, i: int)
  {
    && 0 <= i < |keywords|
    && Matches(keywords[i], title)
    && forall j :: 0 <= j < i ==> !Matches(keywords[j], title)
  }

  ghost predicate AnyMatches(keywords: seq<string>, title: string)
  {
    exists i :: 0 <= i < |keywords| && Matches(keywords[i], title)
  }

  /** `(True, keyword)` for the earliest keyword found in the title,
      `(False, None)` when none is. */
  function CheckKeywords(keywords: seq<string>, title: string): (r: (bool, Option<string>))
    ensures r.0 <==> r.1.Some?
    ensures r.0 <==> AnyMatches(keywords, title)
    ensures r.0 ==> exists i :: IsFirstMatch(keywords, title, i) && r.1.value == keywords[i]
  {
    if |keywords| == 0 then (false, None)
    else if Matches(keywords[0], title) then (true, Some(keywords[0]))
    else
      var r := CheckKeywords(keywords[1..], title);
      assert AnyMatches(keywords, title) ==> AnyMatches(keywords[1..], title) by {
        if AnyMatches(keywords, title) {
          var i :| 0 <= i < |keywords| && Matches(keywords[i], title);
          assert Matches(keywords[1..][i - 1], title);
        }
      }
      r
  }

  /** Matching ignores ASCII case in the title: lowering it first changes
      nothing. */
  lemma {:induction false} CheckKeywordsIgnoresCase(keywords: seq<string>, title: string)
    ensures CheckKeywords(keywords, Lower(title)) == CheckKeywords(keywords, title)
  {
    LowerIdempotent(title);
    if |keywords| > 0 {
      CheckKeywordsIgnoresCase(keywords[1..], title);
    }
  }

  /** Extending the keyword list at the end never changes an existing match;
      the new keywords are only consulted when the old list finds nothing. */
  lemma {:induction false} CheckKeywordsAppend(front: seq<string>, back: seq<string>, title: string)
    ensures CheckKeywords(front + back, title) ==
      if CheckKeywords(front, title).0 then CheckKeywords(front, title)
      else CheckKeywords(back, title)
    decreases |front|
  {
    if |front| == 0 {
      assert front + back == back;
    } else {
      assert (front + back)[1..] == front[1..] + back;
      CheckKeywordsAppend(front[1..], back, title);
    }
  }

  /** A title naming the specific protest group is reported under that
      keyword, not under the shorter keyword it contains. */
  lemma ShippedPrefersSpecific(title: string)
    requires Contains(title, Shipped[0])
    ensures CheckKeywords(Shipped, title) == (true, Some(Shipped[0]))
    ensures CheckKeywords(Shipped, title).1 != Some("장애인")
  {
    LowerNoCapitals(Shipped[0]);
    ContainsLower(title, Shipped[0]);
  }
}
