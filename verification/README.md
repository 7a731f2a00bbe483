# Seoul Metro board monitor — Dafny model

The monitor fetches the Seoul Metro announcement board, extracts posts from
the rows of its listing table, and keeps the posts dated today whose titles
contain a keyword. For each such post it sends one JSON notification to a
webhook. This project models the pure logic of one run in Dafny and proves
its properties:

- **Text** (`text.dfy`): Python's substring test `sub in s`, `startswith`,
  ASCII `lower` and ASCII `isdigit`. Substring search is proved equivalent to
  "occurs at some offset".
- **Board** (`board.dfy`): the per-row heuristics of `parse_board_posts`.
  A row needs at least 3 cells. The title is the first cell, in document
  order, whose text is longer than 5 characters and is not all digits. The
  link is the href of that cell's anchor, resolved against
  `http://www.seoulmetro.co.kr`. The date is the last cell whose text has a
  `-`, `.` or `/` separator and is at least 8 characters long; without one,
  the date is today. The module also models the choice of row list among the
  structural selectors, and the parse of all rows as an order-preserving
  filter-map.
- **Keywords** (`keywords.dfy`): `check_keywords`, a case-insensitive
  first-match search over the ordered keyword list
  `["특정 장애인 단체 집회시위", "장애인", "집회", "시위"]`.
- **Monitor** (`monitor.dfy`): `is_today_post`, the notification payload
  (without its timestamp), and the loop of `monitor_posts`. The loop is a fold
  over the posts. It is proved equal to independent reference definitions of
  the attempted notifications, the count of posts dated today and the count of
  notifications sent. The run's early exits are modelled too: no content, or
  no posts.

The clock is a `today` parameter, a string of the form `YYYY-MM-DD`. The
webhook POST is an oracle `send: (nat, Payload) -> bool`. It receives the
attempt number and the payload, and answers whether the endpoint replied with
HTTP 200. HTML parsing is outside the model: a row is a sequence of `Cell`s
holding already-stripped text and the `href` of the cell's first anchor, if
any.

Three details of the code are easy to misread; the model follows the code:

- An anchor whose `href` is present but empty gives no link, because the code
  tests the truthiness of `link_tag.get('href')`.
- Any href starting with the four letters `http` is kept unchanged. This
  includes forms that are not absolute URLs, such as `httpdocs/a.html`.
- The date scan looks at every cell, including the title cell.

## Model

| member | source | states |
|---|---|---|
| Text.Contains | monitor.py:121 | Python's substring test succeeds exactly when the needle occurs at some offset of the haystack, so the empty needle is found everywhere |
| Text.Lower | monitor.py:119-121 | lowercasing keeps the length and leaves no ASCII capital; each capital becomes the small letter at the same alphabet position, and every other character is kept |
| Text.ContainsLower | monitor.py:119-121 | a substring stays a substring after both strings are lowercased, so matching on lowered text cannot lose an occurrence |
| Board.FindTitle | monitor.py:72-76 | the chosen cell is the first, in document order, whose text is longer than 5 characters and not all digits; none is chosen only if no cell qualifies |
| Board.FindDate | monitor.py:91-98 | the chosen cell is the last, in document order, whose text contains '-', '.' or '/' and has length at least 8; none is chosen only if no cell qualifies |
| Board.ResolveLink | monitor.py:78-84 | the link is empty exactly when there is no non-empty href; a non-empty link always starts with "http"; an href starting with "http" is kept, any other href is appended to the site origin |
| Board.ParseRow | monitor.py:64-107 | a row yields a post exactly when it has at least 3 cells and a title-like cell; the title and link come from the first title-like cell; the date comes from the last date-like cell, or is today when there is none; every title is longer than 5 characters and not all digits; the date is never empty when today is not |
| Board.ParseRows | monitor.py:64-110 | a row list yields no more posts than it has rows |
| Board.ParseRowsSound | monitor.py:64-107 | every parsed post is the post of some row |
| Board.ParseRowsComplete | monitor.py:64-107 | every row that yields a post contributes that post |
| Board.ParseRowsAppend | monitor.py:64-107 | parsing distributes over concatenation of row lists, so the posts keep the order of their rows |
| Board.ParseRowsWellFormed | monitor.py:75-84 | every parsed post has a title-like title and a link that is empty or starts with "http" |
| Board.ChooseRows | monitor.py:55-62 | the rows come from the first selector that finds any row, or from every row of the document when no selector does |
| Board.ParseBoard | monitor.py:55-110 | a page yields no more posts than the chosen row list has rows |
| Keywords.CheckKeywords | monitor.py:117-123 | the flag is true exactly when the keyword is present, and exactly when some keyword occurs case-insensitively in the title; the reported keyword is the earliest such keyword in list order |
| Keywords.CheckKeywordsIgnoresCase | monitor.py:119-121 | lowercasing the title first changes neither the verdict nor the keyword |
| Keywords.CheckKeywordsAppend | monitor.py:120-123 | keywords appended to the list are consulted only when the earlier keywords all fail, so they never change an existing match |
| Keywords.ShippedPrefersSpecific | monitor.py:18 | with the shipped list, a title containing "특정 장애인 단체 집회시위" reports that keyword and not "장애인" |
| Monitor.IsTodayPost | monitor.py:125-131 | a date passes exactly when today's date string occurs at some offset of it |
| Monitor.DefaultDateIsToday | monitor.py:100-101 | a post from a row without a date-like cell passes the today filter for the same today |
| Monitor.BuildPayload | monitor.py:136-141 | title, date and link are copied from the post; the message holds the keyword right after its fixed opening and ends with the title |
| Monitor.MessageMentions | monitor.py:141 | the message contains both the matched keyword and the title |
| Monitor.StepMeetsReference | monitor.py:190-206 | one iteration adds the post's attempt exactly when the post is dated today and matches a keyword; it adds one to today's count exactly when the post is dated today; it adds one to the sent count exactly when it made an attempt and the endpoint accepted it |
| Monitor.Scan | monitor.py:186-206 | notifications sent never exceed attempts, attempts never exceed today's posts, and today's posts never exceed all posts |
| Monitor.ScanAttempts | monitor.py:189-205 | the loop attempts exactly the posts dated today with a keyword match, each under its first matching keyword, in post order |
| Monitor.ScanTodayCount | monitor.py:189-194 | the loop's count of today's posts equals the number of posts whose date contains today |
| Monitor.ScanSent | monitor.py:204-206 | the loop's count of sent notifications equals the number of attempts the endpoint accepted |
| Monitor.ScanMeetsReference | monitor.py:189-206 | the loop attempts exactly the posts dated today with a keyword match, in post order; it counts exactly the posts dated today; it counts as sent exactly the attempts the endpoint accepted |
| Monitor.SelectedSound | monitor.py:189-198 | every attempt is for a listed post dated today, under the first keyword its title matches |
| Monitor.SelectedComplete | monitor.py:189-205 | every listed post that is dated today and matches a keyword gets an attempt |
| Monitor.AllDelivered | monitor.py:205-206 | when every POST succeeds, every attempt is counted as sent |
| Monitor.NoneDelivered | monitor.py:205-206 | when every POST fails, nothing is counted as sent |
| Monitor.MonitorPosts | monitor.py:172-206 | the run fails exactly when there is no content; it stops with no posts exactly when the page parses to nothing; a completed run attempts exactly the parsed posts dated today that match a shipped keyword, in order, counts exactly the parsed posts dated today, and counts as sent exactly the attempts the endpoint accepted |
| Monitor.RunAttempts | monitor.py:172-206 | a run without content attempts nothing; otherwise it attempts exactly the parsed posts dated today that match a shipped keyword, in order |

## Left out

- HTTP GET of the board (`fetch_board_content`, monitor.py:20-36): network I/O. Its result is the `Option<Page>` argument of `MonitorPosts`. `None` covers a non-200 status, a transport error and an empty body.
- HTTP POST of the payload (monitor.py:145-162): network I/O. It is the `send` oracle. A transport exception counts as a `false` answer.
- HTML parsing with BeautifulSoup: the CSS selectors, `find_all`, `get_text(strip=True)` and `find('a')` (monitor.py:43-65, 73, 78). This is a foreign library. Its results are the `Page` and `Cell` values.
- The early return on empty markup (monitor.py:40-41): markup is not modelled. Empty markup has no rows, so it parses to no posts anyway.
- The outer `try/except` of the parser and the per-row `try/except` (monitor.py:46, 109-113): they guard only code that cannot raise on the modelled inputs, so row parsing is total.
- `datetime.now()`, `strftime` and the ISO timestamp (monitor.py:101, 128, 142): clock access. `today` is a parameter and the payload has no timestamp field.
- A single `today` stands for every clock read of a run. The code reads the clock again for each row without a date cell (monitor.py:101) and for each post it filters (monitor.py:128). A run that crosses midnight can default a row to one day and then filter it against the next; that case is not modelled, and `Monitor.DefaultDateIsToday` and `Monitor.RunAttempts` rely on the single `today`.
- Console output, the `WEBHOOK_URL` environment check and `exit(1)` (monitor.py:166-169, 174, 179, 182, 199-202, 208-224): process I/O only. The summary counts that the console prints are the fields of `Summary`.
- Keywords.CheckKeywords: lowercasing maps only ASCII `A`-`Z`, while Python's `str.lower` also lowercases other scripts. Hangul has no case, so the shipped keywords behave the same.
- Board.FindTitle: "all digits" means a non-empty run of ASCII `0`-`9`, while Python's `str.isdigit` also accepts other Unicode digits.
