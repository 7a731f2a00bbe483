/** One monitoring run: keep the posts dated today, match their titles
    against the keywords, and attempt one notification per matched post.
    The clock is the `today` parameter; the webhook POST is the `send`
    oracle, told the attempt number and the payload and answering whether
    the endpoint replied 200. */
module Monitor {
  import opened Wrappers
  import opened Text
  import opened Board
  import opened Keywords

  /** The JSON body of a notification, without its send-time timestamp. */
  datatype Payload = Payload(title: string, date: string, link: string, keyword: string, message: string)

  /** A matched post and the keyword it matched. */
  datatype Attempt = Attempt(post: Post, keyword: string)

  /** What a run accumulates: the notifications attempted in order, the
      number of posts dated today and the number of notifications that
      succeeded. */
  datatype Summary = Summary(attempts: seq<Attempt>, todayCount: nat, sent: nat)

  /** How a run ends: no page content, no posts on the page, or a full scan. */
  datatype Outcome = FetchFailed | NoPosts | Completed(summary: Summary)

  /** Answers whether the POST of the given attempt number returned 200. */
  type Sender = (nat, Payload) -> bool

  const MessageHead: string := "키워드 '"
  const MessageMiddle: string := "' 매칭: "

  /** The date string contains today's date anywhere. */
  function IsTodayPost(today: string, date: string): (r: bool)
    ensures r <==> exists i :: OccursAt(date, today, i)
  {
    Contains(date, today)
  }

  /** A post whose row had no date-like cell is dated today by the parser, so
      it always passes the today filter for the same `today`. */
  lemma DefaultDateIsToday(row: Row, today: string)
    ensures ParseRow(row, today).Some? && !HasDateCell(row) ==>
      IsTodayPost(today, ParseRow(row, today).value.date)
  {
    assert OccursAt(today, today, 0);
  }

  /** The notification payload of a matched post. The message quotes the
      keyword and ends with the title, so both can be read back from it. */
  function BuildPayload(post: Post, keyword: string): (p: Payload)
    ensures p.title == post.title && p.date == post.date && p.link == post.link
    ensures p.keyword == keyword
    ensures |p.message| == |MessageHead| + |keyword| + |MessageMiddle| + |post.title|
    ensures p.message[|MessageHead|..|MessageHead| + |keyword|] == keyword
    ensures p.message[|p.message| - |post.title|..] == post.title
  {
    Payload(post.title, post.date, post.link, keyword,
            MessageHead + keyword + MessageMiddle + post.title)
  }

  /** The message contains both the keyword and the title. */
  lemma {:induction false} MessageMentions(post: Post, keyword: string)
    ensures Contains(BuildPayload(post, keyword).message, keyword)
    ensures Contains(BuildPayload(post, keyword).message, post.title)
  {
    ContainsSelf(keyword);
    ContainsSelf(post.title);
    ContainsWithin(MessageHead, keyword, MessageMiddle + post.title, keyword);
    assert MessageHead + keyword + (MessageMiddle + post.title)
      == MessageHead + keyword + MessageMiddle + post.title;
    ContainsWithin(MessageHead + keyword + MessageMiddle, post.title, "", post.title);
    assert MessageHead + keyword + MessageMiddle + post.title + ""
      == MessageHead + keyword + MessageMiddle + post.title;
  }

  /** One iteration of the loop over the posts. */
  function Step(s: Summary, post: Post, keywords: seq<string>, today: string, send: Sender): Summary
  {
    if !IsTodayPost(today, post.date) then s
    else
      var m := CheckKeywords(keywords, post.title);
      if !m.0 then s.(todayCount := s.todayCount + 1)
      else
        var delivered := send(|s.attempts|, BuildPayload(post, m.1.value));
        Summary(s.attempts + [Attempt(post, m.1.value)],
                s.todayCount + 1,
                if delivered then s.sent + 1 else s.sent)
  }

  /** One iteration adds the post's attempt exactly when the post is
      selected, counts it exactly when it is dated today, and counts a
      notification as sent only when it attempted one and the oracle
      accepted it. */
  lemma StepMeetsReference(s: Summary, post: Post, keywords: seq<string>, today: string, send: Sender)
    ensures Step(s, post, keywords, today, send).attempts == s.attempts + Selected([post], keywords, today)
    ensures Step(s, post, keywords, today, send).todayCount == s.todayCount + TodayCount([post], today)
    ensures var r := Step(s, post, keywords, today, send);
      r.sent == s.sent +
        if |r.attempts| > |s.attempts|
          && send(|s.attempts|, BuildPayload(r.attempts[|s.attempts|].post, r.attempts[|s.attempts|].keyword))
        then 1 else 0
  {
  }

  /** The loop over the posts, as a fold from the first post to the last. */
  function Scan(posts: seq<Post>, keywords: seq<string>, today: string, send: Sender): (s: Summary)
    ensures s.sent <= |s.attempts| <= s.todayCount <= |posts|
    decreases |posts|
  {
    if |posts| == 0 then Summary([], 0, 0)
    else Step(Scan(posts[..|posts| - 1], keywords, today, send), posts[|posts| - 1], keywords, today, send)
  }

  /** Reference: the posts dated today that match a keyword, each with its
      first matching keyword, in post order. */
  function Selected(posts: seq<Post>, keywords: seq<string>, today: string): seq<Attempt>
  {
    if |posts| == 0 then []
    else SelectPost(posts[0], keywords, today) + Selected(posts[1..], keywords, today)
  }

  /** The attempt for one post: none unless it is dated today and matches. */
  function SelectPost(post: Post, keywords: seq<string>, today: string): seq<Attempt>
  {
    var m := CheckKeywords(keywords, post.title);
    if IsTodayPost(today, post.date) && m.0 then [Attempt(post, m.1.value)] else []
  }

  /** Reference: the number of posts dated today. */
  function TodayCount(posts: seq<Post>, today: string): nat
  {
    if |posts| == 0 then 0
    else (if IsTodayPost(today, posts[0].date) then 1 else 0) + TodayCount(posts[1..], today)
  }

  /** Reference: the number of attempts, numbered from 0, that the oracle
      reports as delivered. */
  function Delivered(attempts: seq<Attempt>, send: Sender): nat
  {
    if |attempts| == 0 then 0
    else
      var last := attempts[|attempts| - 1];
      Delivered(attempts[..|attempts| - 1], send)
        + if send(|attempts| - 1, BuildPayload(last.post, last.keyword)) then 1 else 0
  }

  lemma {:induction false} SelectedAppend(a: seq<Post>, b: seq<Post>, keywords: seq<string>, today: string)
    ensures Selected(a + b, keywords, today) == Selected(a, keywords, today) + Selected(b, keywords, today)
    decreases |a|
  {
    if |a| == 0 {
      assert a + b == b;
    } else {
      assert (a + b)[0] == a[0];
      assert (a + b)[1..] == a[1..] + b;
      SelectedAppend(a[1..], b, keywords, today);
    }
  }

  lemma {:induction false} TodayCountAppend(a: seq<Post>, b: seq<Post>, today: string)
    ensures TodayCount(a + b, today) == TodayCount(a, today) + TodayCount(b, today)
    decreases |a|
  {
    if |a| == 0 {
      assert a + b == b;
    } else {
      assert (a + b)[1..] == a[1..] + b;
      TodayCountAppend(a[1..], b, today);
    }
  }

  /** The loop attempts notifications for exactly the selected posts, in
      order. */
  lemma {:induction false} ScanAttempts(posts: seq<Post>, keywords: seq<string>, today: string, send: Sender)
    ensures Scan(posts, keywords, today, send).attempts == Selected(posts, keywords, today)
    decreases |posts|
  {
    if |posts| > 0 {
      var front, last := posts[..|posts| - 1], posts[|posts| - 1];
      assert posts == front + [last];
      ScanAttempts(front, keywords, today, send);
      SelectedAppend(front, [last], keywords, today);
    }
  }

  /** The loop counts exactly the posts dated today. */
  lemma {:induction false} ScanTodayCount(posts: seq<Post>, keywords: seq<string>, today: string, send: Sender)
    ensures Scan(posts, keywords, today, send).todayCount == TodayCount(posts, today)
    decreases |posts|
  {
    if |posts| > 0 {
      var front, last := posts[..|posts| - 1], posts[|posts| - 1];
      assert posts == front + [last];
      ScanTodayCount(front, keywords, today, send);
      TodayCountAppend(front, [last], today);
    }
  }

  /** The loop counts as sent exactly the attempts the oracle accepts. */
  lemma {:induction false} ScanSent(posts: seq<Post>, keywords: seq<string>, today: string, send: Sender)
    ensures Scan(posts, keywords, today, send).sent
      == Delivered(Scan(posts, keywords, today, send).attempts, send)
    decreases |posts|
  {
    if |posts| > 0 {
      var front, last := posts[..|posts| - 1], posts[|posts| - 1];
      ScanSent(front, keywords, today, send);
      var s := Scan(front, keywords, today, send);
      var s' := Scan(posts, keywords, today, send);
      if IsTodayPost(today, last.date) && CheckKeywords(keywords, last.title).0 {
        assert s'.attempts[..|s'.attempts| - 1] == s.attempts;
      }
    }
  }

  /** The loop agrees with the reference definitions on all three results. */
  lemma ScanMeetsReference(posts: seq<Post>, keywords: seq<string>, today: string, send: Sender)
    ensures Scan(posts, keywords, today, send).attempts == Selected(posts, keywords, today)
    ensures Scan(posts, keywords, today, send).todayCount == TodayCount(posts, today)
    ensures Scan(posts, keywords, today, send).sent
      == Delivered(Scan(posts, keywords, today, send).attempts, send)
  {
    ScanAttempts(posts, keywords, today, send);
    ScanTodayCount(posts, keywords, today, send);
    ScanSent(posts, keywords, today, send);
  }

  /** Every attempt is for a post of the list that is dated today, under the
      first keyword its title matches; so a post that is not dated today, or
      matches nothing, is never attempted. */
  lemma {:induction false} SelectedSound(posts: seq<Post>, keywords: seq<string>, today: string)
    ensures forall a :: a in Selected(posts, keywords, today) ==>
      && a.post in posts
      && IsTodayPost(today, a.post.date)
      && CheckKeywords(keywords, a.post.title) == (true, Some(a.keyword))
    decreases |posts|
  {
    if |posts| > 0 {
      SelectedSound(posts[1..], keywords, today);
      forall a | a in Selected(posts[1..], keywords, today) ensures a.post in posts {
        assert a.post in posts[1..];
      }
    }
  }

  /** A post dated today that matches a keyword is attempted. */
  lemma {:induction false} SelectedComplete(posts: seq<Post>, keywords: seq<string>, today: string, i: nat)
    requires i < |posts|
    requires IsTodayPost(today, posts[i].date)
    requires CheckKeywords(keywords, posts[i].title).0
    ensures Attempt(posts[i], CheckKeywords(keywords, posts[i].title).1.value)
      in Selected(posts, keywords, today)
    decreases i
  {
    if i > 0 {
      SelectedComplete(posts[1..], keywords, today, i - 1);
    }
  }

  /** When every POST succeeds, every attempt is counted as sent. */
  lemma {:induction false} AllDelivered(attempts: seq<Attempt>, send: Sender)
    requires forall n, p :: send(n, p)
    ensures Delivered(attempts, send) == |attempts|
    decreases |attempts|
  {
    if |attempts| > 0 {
      AllDelivered(attempts[..|attempts| - 1], send);
    }
  }

  /** When every POST fails, nothing is counted as sent. */
  lemma {:induction false} NoneDelivered(attempts: seq<Attempt>, send: Sender)
    requires forall n, p :: !send(n, p)
    ensures Delivered(attempts, send) == 0
    decreases |attempts|
  {
    if |attempts| > 0 {
      NoneDelivered(attempts[..|attempts| - 1], send);
    }
  }

  /** A whole run on the fetched page (None when the fetch produced no
      content) with the shipped keywords. */
  function MonitorPosts(fetched: Option<Page>, today: string, send: Sender): (o: Outcome)
    ensures o.FetchFailed? <==> fetched.None?
    ensures o.NoPosts? <==> fetched.Some? && ParseBoard(fetched.value, today) == []
    ensures o.Completed? ==>
      && o.summary.attempts == Selected(ParseBoard(fetched.value, today), Shipped, today)
      && o.summary.todayCount == TodayCount(ParseBoard(fetched.value, today), today)
      && o.summary.sent == Delivered(o.summary.attempts, send)
  {
    if fetched.None? then FetchFailed
    else
      var posts := ParseBoard(fetched.value, today);
      if posts == [] then NoPosts
      else
        ScanMeetsReference(posts, Shipped, today, send);
        Completed(Scan(posts, Shipped, today, send))
  }

  /** The notifications a run attempts. */
  function Attempted(o: Outcome): seq<Attempt>
  {
    if o.Completed? then o.summary.attempts else []
  }

  /** A run attempts, in post order, exactly the parsed posts that are dated
      today and match a shipped keyword; without content or posts it attempts
      nothing. */
  lemma RunAttempts(fetched: Option<Page>, today: string, send: Sender)
    ensures fetched.None? ==> Attempted(MonitorPosts(fetched, today, send)) == []
    ensures fetched.Some? ==>
      Attempted(MonitorPosts(fetched, today, send))
        == Selected(ParseBoard(fetched.value, today), Shipped, today)
  {
  }
}
