/** The upstream consumption log as the platform sees it: a closed time window,
    newest id first, read in pages of 100. */
module UsageLogs {

  import opened Prelude

  datatype LogEntry = LogEntry(id: int, userID: int, username: string, createdAt: int,
                               modelName: string, quota: int, tokenID: int)

  predicate NewestFirst(s: seq<LogEntry>) {
    forall i, j | 0 <= i < j < |s| :: s[i].id > s[j].id
  }

  /** What upstream shows during one scan. Views of different scans are unrelated. */
  type View = s: seq<LogEntry> | NewestFirst(s)

  /** Log rows are immutable: every view is a part of one table of logs, keyed by id. */
  ghost predicate PartOf(v: seq<LogEntry>, world: map<int, LogEntry>) {
    forall e | e in v :: e.id in world && world[e.id] == e
  }

  datatype Query = Query(since: int, until: int, user: Option<string>) {
    predicate Selects(e: LogEntry) {
      since <= e.createdAt <= until && (user.Some? ==> e.username == user.value)
    }
  }

  function Select(v: View, q: Query): (w: View)
    ensures forall e :: e in w <==> e in v && q.Selects(e)
  {
    if |v| == 0 then []
    else
      var rest := Select(v[1..], q);
      assert v == [v[0]] + v[1..];
      if q.Selects(v[0]) then
        assert forall j | 0 <= j < |rest| :: rest[j] in v[1..];
        [v[0]] + rest
      else rest
  }

  /** A narrower window never shows more rows. */
  lemma {:induction false} SelectNarrower(v: View, q: Query, wide: Query)
    requires wide.since <= q.since && q.until <= wide.until && q.user == wide.user
    ensures |Select(v, q)| <= |Select(v, wide)|
  {
    if |v| > 0 {
      SelectNarrower(v[1..], q, wide);
    }
  }

  const PAGE_SIZE := 100

  /** One upstream call: the requested page and the number of rows in the window. */
  function ReadPage(v: View, q: Query, page: int): (r: (seq<LogEntry>, nat))
    requires 1 <= page
  {
    var w := Select(v, q);
    (w[Min((page - 1) * PAGE_SIZE, |w|)..Min(page * PAGE_SIZE, |w|)], |w|)
  }

  function Newest(w: seq<LogEntry>, n: nat): (r: seq<LogEntry>)
    ensures r <= w && |r| == Min(|w|, n)
    ensures forall e | e in r :: e in w
  {
    if |w| <= n then w else w[..n]
  }

  /** The page loop all four readers share: stop at the last page or at the page limit. */
  method ReadPages(v: View, q: Query, maxPages: nat) returns (out: seq<LogEntry>)
    ensures out == Newest(Select(v, q), maxPages * PAGE_SIZE)
  {
    out := [];
    ghost var w := Select(v, q);
    var page := 1;
    while page <= maxPages
      invariant 1 <= page <= maxPages + 1
      invariant out == Newest(w, (page - 1) * PAGE_SIZE)
    {
      var (entries, total) := ReadPage(v, q, page);
      out := out + entries;
      assert out == Newest(w, page * PAGE_SIZE);
      if page * PAGE_SIZE >= total {
        return;
      }
      page := page + 1;
    }
  }
}
