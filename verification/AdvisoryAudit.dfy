/** `query` in tools/safety/advisories.py: bounded, batched, paginated advisory queries. */
module AdvisoryAudit {
  import opened Results
  import opened PackageInventory

  datatype Query = Query(ecosystem: string, name: string, version: string, token: Option<string>)

  /** Untrusted replies, as far as the checks distinguish them. A falsy token counts as absent. */
  datatype Vuln = Advisory(id: string) | NoId
  datatype Vulns = Absent | Listed(entries: seq<Vuln>) | NotAList
  datatype Token = NoToken | Token(text: string) | BadToken
  datatype Reply = Reply(vulns: Vulns, token: Token) | NotAReply
  datatype Response = Replies(replies: seq<Reply>) | NotAResponse

  type Answer = Query -> Reply
  type Request = seq<Query> -> Response

  /** A pending package with the token of its next page and the tokens already followed. */
  datatype Entry = Entry(package: Package, token: Option<string>, seen: set<string>)

  type Finding = (string, string)

  datatype Error = IncompleteResponse | Malformed | PageToken | LimitReached

  const PAGES := 20
  const BATCH := 200

  function QueryOf(e: Entry): Query {
    Query(e.package.ecosystem, e.package.name, e.package.version, e.token)
  }

  function Queries(entries: seq<Entry>): seq<Query> {
    seq(|entries|, i requires 0 <= i < |entries| => QueryOf(entries[i]))
  }

  /** A page without a `next_page_token`, or with an empty one, is the last. */
  predicate LastPage(r: Reply) {
    r.Reply? && (r.token.NoToken? || r.token == Token(""))
  }

  /** The body of a page is a list of named advisories, if it lists any. */
  predicate Readable(r: Reply) {
    && r.Reply? && !r.vulns.NotAList?
    && (r.vulns.Listed? ==> forall i :: 0 <= i < |r.vulns.entries| ==>
          r.vulns.entries[i].Advisory? && r.vulns.entries[i].id != "")
  }

  predicate WellFormed(r: Reply) {
    Readable(r) && !r.token.BadToken?
  }

  function Advisories(r: Reply): set<string> {
    if r.Reply? && r.vulns.Listed? then set v | v in r.vulns.entries && v.Advisory? :: v.id else {}
  }

  function Tag(id: string, advisories: set<string>): set<Finding> {
    set a | a in advisories :: (id, a)
  }

  // ---------------------------------------------------------------- page chains

  /** A provider whose reply to each query does not depend on the rest of the batch. */
  ghost predicate ChainProvider(request: Request, answer: Answer) {
    forall queries :: request(queries) == Replies(seq(|queries|, i requires 0 <= i < |queries| => answer(queries[i])))
  }

  function PageAt(answer: Answer, p: Package, token: Option<string>): Reply {
    answer(Query(p.ecosystem, p.name, p.version, token))
  }

  /** Page `i` is well formed and names page `i + 1`. */
  ghost predicate Linked(answer: Answer, p: Package, tokens: seq<Option<string>>, i: nat)
    requires i + 1 < |tokens|
  {
    var page := PageAt(answer, p, tokens[i]);
    WellFormed(page) && !LastPage(page) && tokens[i + 1] == Some(page.token.text)
  }

  /** `tokens` are the tokens of the first pages of `p`, each named by the page before it. */
  ghost predicate Follows(answer: Answer, p: Package, tokens: seq<Option<string>>) {
    && tokens != [] && tokens[0] == None
    && forall i: nat :: i + 1 < |tokens| ==> Linked(answer, p, tokens, i)
  }

  /** The full chain of `p`: every page is well formed and only the last one names no successor. */
  ghost predicate IsChain(answer: Answer, p: Package, tokens: seq<Option<string>>) {
    && Follows(answer, p, tokens)
    && WellFormed(PageAt(answer, p, tokens[|tokens| - 1])) && LastPage(PageAt(answer, p, tokens[|tokens| - 1]))
  }

  /** All advisories on the pages of a chain. */
  ghost function OnChain(answer: Answer, p: Package, tokens: seq<Option<string>>): set<string> {
    set i, a | 0 <= i < |tokens| && a in Advisories(PageAt(answer, p, tokens[i])) :: a
  }

  /** Chains are determined by the provider. */
  lemma {:induction false} FollowedTokensAgree(
    answer: Answer, p: Package, a: seq<Option<string>>, b: seq<Option<string>>, i: nat)
    requires Follows(answer, p, a) && Follows(answer, p, b) && i < |a| && i < |b|
    ensures a[i] == b[i]
  {
    if i > 0 {
      FollowedTokensAgree(answer, p, a, b, i - 1);
      assert Linked(answer, p, a, i - 1) && Linked(answer, p, b, i - 1);
    }
  }

  lemma InnerPageIsNotLast(answer: Answer, p: Package, tokens: seq<Option<string>>, i: nat)
    requires Follows(answer, p, tokens) && i + 1 < |tokens|
    ensures !LastPage(PageAt(answer, p, tokens[i]))
  {
    assert Linked(answer, p, tokens, i);
  }

  lemma ChainIsNoLonger(answer: Answer, p: Package, a: seq<Option<string>>, b: seq<Option<string>>)
    requires IsChain(answer, p, a) && Follows(answer, p, b)
    ensures |b| <= |a|
  {
    if |a| < |b| {
      FollowedTokensAgree(answer, p, a, b, |a| - 1);
      InnerPageIsNotLast(answer, p, b, |a| - 1);
    }
  }

  lemma ChainIsUnique(answer: Answer, p: Package, a: seq<Option<string>>, b: seq<Option<string>>)
    requires IsChain(answer, p, a) && IsChain(answer, p, b)
    ensures a == b
  {
    ChainIsNoLonger(answer, p, a, b);
    ChainIsNoLonger(answer, p, b, a);
    forall i | 0 <= i < |a| ensures a[i] == b[i] {
      FollowedTokensAgree(answer, p, a, b, i);
    }
  }

  /** A chain that ends never repeats a token. */
  lemma {:induction false} ChainTokensAreDistinct(
    answer: Answer, p: Package, tokens: seq<Option<string>>, i: nat, j: nat)
    requires IsChain(answer, p, tokens) && i < j < |tokens|
    ensures tokens[i] != tokens[j]
    decreases |tokens| - j
  {
    if tokens[i] == tokens[j] {
      assert Linked(answer, p, tokens, i);
      if j == |tokens| - 1 {
        assert false;
      } else {
        assert Linked(answer, p, tokens, j);
        ChainTokensAreDistinct(answer, p, tokens, i + 1, j + 1);
      }
    }
  }

  // ---------------------------------------------------------------- following one package

  datatype Track = Going(entry: Entry) | Ended | Broken(error: Error)

  /** What one page does to a pending package. */
  function Advance(e: Entry, r: Reply): Track {
    if !Readable(r) then Broken(Malformed)
    else if LastPage(r) then Ended
    else if r.token.BadToken? || r.token.text in e.seen then Broken(PageToken)
    else Going(Entry(e.package, Some(r.token.text), e.seen + {r.token.text}))
  }

  function TrackOf(answer: Answer, p: Package, k: nat): Track {
    if k == 0 then Going(Entry(p, None, {}))
    else
      var t := TrackOf(answer, p, k - 1);
      if t.Going? then Advance(t.entry, answer(QueryOf(t.entry))) else t
  }

  /** The advisories found for `p` on its first `k` pages. */
  function FoundBy(answer: Answer, p: Package, k: nat): set<string> {
    if k == 0 then {}
    else
      var t := TrackOf(answer, p, k - 1);
      FoundBy(answer, p, k - 1) + (if t.Going? then Advisories(answer(QueryOf(t.entry))) else {})
  }

  function SeenIn(tokens: seq<Option<string>>): set<string> {
    set t | t in tokens && t.Some? :: t.value
  }

  lemma SeenInGrows(tokens: seq<Option<string>>, text: string)
    ensures SeenIn(tokens + [Some(text)]) == SeenIn(tokens) + {text}
  {
    var all := tokens + [Some(text)];
    forall x | x in SeenIn(tokens) + {text} ensures x in SeenIn(all) {
      if x in SeenIn(tokens) {
        assert Some(x) in tokens && Some(x) in all;
      } else {
        assert all[|tokens|] == Some(x);
      }
    }
  }

  lemma FollowsGrows(answer: Answer, p: Package, tokens: seq<Option<string>>, page: Reply)
    requires Follows(answer, p, tokens) && page == PageAt(answer, p, tokens[|tokens| - 1])
    requires WellFormed(page) && !LastPage(page)
    ensures Follows(answer, p, tokens + [Some(page.token.text)])
  {
    var all := tokens + [Some(page.token.text)];
    forall i: nat | i + 1 < |all| ensures Linked(answer, p, all, i) {
      if i + 1 < |tokens| {
        assert Linked(answer, p, tokens, i);
      }
    }
  }

  /** A package still pending after `k` pages has followed `k` links, without repeating a token. */
  lemma {:induction false} GoingMeansFollowing(answer: Answer, p: Package, k: nat) returns (tokens: seq<Option<string>>)
    requires TrackOf(answer, p, k).Going?
    ensures Follows(answer, p, tokens) && |tokens| == k + 1
    ensures TrackOf(answer, p, k).entry == Entry(p, tokens[k], SeenIn(tokens))
    ensures FoundBy(answer, p, k) == OnChain(answer, p, tokens[..k])
  {
    if k == 0 {
      tokens := [None];
      assert SeenIn(tokens) == {};
    } else {
      var before := GoingMeansFollowing(answer, p, k - 1);
      var page := PageAt(answer, p, before[k - 1]);
      tokens := before + [Some(page.token.text)];
      FollowsGrows(answer, p, before, page);
      SeenInGrows(before, page.token.text);
      FoundOnNextPage(answer, p, before, k - 1);
      assert tokens[..k] == before;
    }
  }

  lemma FoundOnNextPage(answer: Answer, p: Package, tokens: seq<Option<string>>, k: nat)
    requires |tokens| == k + 1 && FoundBy(answer, p, k) == OnChain(answer, p, tokens[..k])
    requires TrackOf(answer, p, k).Going? && TrackOf(answer, p, k).entry.package == p
    requires TrackOf(answer, p, k).entry.token == tokens[k]
    ensures FoundBy(answer, p, k + 1) == OnChain(answer, p, tokens)
  {
    assert tokens == tokens[..k] + [tokens[k]];
    OnChainGrows(answer, p, tokens[..k], tokens[k]);
  }

  lemma OnChainGrows(answer: Answer, p: Package, tokens: seq<Option<string>>, token: Option<string>)
    ensures OnChain(answer, p, tokens + [token]) == OnChain(answer, p, tokens) + Advisories(PageAt(answer, p, token))
  {
    var all := tokens + [token];
    forall a | a in OnChain(answer, p, tokens) + Advisories(PageAt(answer, p, token))
      ensures a in OnChain(answer, p, all)
    {
      if a in OnChain(answer, p, tokens) {
        var i :| 0 <= i < |tokens| && a in Advisories(PageAt(answer, p, tokens[i]));
        assert all[i] == tokens[i];
      } else {
        assert all[|tokens|] == token;
      }
    }
  }

  /** A package that ended within `k` pages has a chain of at most `k` pages, and all its advisories were found. */
  lemma {:induction false} EndedMeansChain(answer: Answer, p: Package, k: nat) returns (tokens: seq<Option<string>>)
    requires TrackOf(answer, p, k).Ended?
    ensures IsChain(answer, p, tokens) && |tokens| <= k && FoundBy(answer, p, k) == OnChain(answer, p, tokens)
  {
    if TrackOf(answer, p, k - 1).Ended? {
      tokens := EndedMeansChain(answer, p, k - 1);
    } else {
      tokens := GoingMeansFollowing(answer, p, k - 1);
      FoundOnNextPage(answer, p, tokens, k - 1);
    }
  }

  /** Along its chain a package stays pending until its last page. */
  lemma {:induction false} ChainMeansEnded(answer: Answer, p: Package, tokens: seq<Option<string>>, k: nat)
    requires IsChain(answer, p, tokens)
    ensures if k < |tokens| then TrackOf(answer, p, k) == Going(Entry(p, tokens[k], SeenIn(tokens[..k + 1])))
            else TrackOf(answer, p, k).Ended?
  {
    if k == 0 {
      assert tokens[..1] == [None];
    } else {
      ChainMeansEnded(answer, p, tokens, k - 1);
      if k < |tokens| {
        assert Linked(answer, p, tokens, k - 1);
        var page := PageAt(answer, p, tokens[k - 1]);
        assert tokens[..k + 1] == tokens[..k] + [tokens[k]];
        assert page.token.text !in SeenIn(tokens[..k]) by {
          if page.token.text in SeenIn(tokens[..k]) {
            var i :| 0 <= i < k && tokens[i] == Some(page.token.text);
            ChainTokensAreDistinct(answer, p, tokens, i, k);
          }
        }
        SeenInGrows(tokens[..k], page.token.text);
      }
    }
  }

  /** The audit of a package can finish: its chain is well formed and ends within the page limit. */
  ghost predicate Auditable(answer: Answer, p: Package) {
    exists tokens :: IsChain(answer, p, tokens) && |tokens| <= PAGES
  }

  lemma AuditableIffEnded(answer: Answer, p: Package)
    ensures Auditable(answer, p) <==> TrackOf(answer, p, PAGES).Ended?
  {
    if tokens :| IsChain(answer, p, tokens) && |tokens| <= PAGES {
      ChainMeansEnded(answer, p, tokens, PAGES);
    }
    if TrackOf(answer, p, PAGES).Ended? {
      var tokens := EndedMeansChain(answer, p, PAGES);
    }
  }

  // ---------------------------------------------------------------- one page of a batch

  /** The entries still pending after a page, in order. */
  function NextEntries(pending: seq<Entry>, replies: seq<Reply>): seq<Entry>
    requires |pending| == |replies|
  {
    if pending == [] then [] else
      var last := |pending| - 1;
      var t := Advance(pending[last], replies[last]);
      NextEntries(pending[..last], replies[..last]) + (if t.Going? then [t.entry] else [])
  }

  function PageFindings(pending: seq<Entry>, replies: seq<Reply>): set<Finding>
    requires |pending| == |replies|
  {
    set i, a | 0 <= i < |pending| && a in Advisories(replies[i]) :: (pending[i].package.id, a)
  }

  predicate Sound(pending: seq<Entry>, replies: seq<Reply>)
    requires |pending| == |replies|
  {
    forall i :: 0 <= i < |pending| ==> !Advance(pending[i], replies[i]).Broken?
  }

  /** The identifiers on one readable page. */
  method ReadPage(package: Package, r: Reply, found: set<Finding>) returns (findings: Result<set<Finding>, Error>)
    ensures findings.Ok? <==> Readable(r)
    ensures findings.Ok? ==> findings.value == found + Tag(package.id, Advisories(r))
  {
    if !r.Reply? || r.vulns.NotAList? {
      return Err(Malformed);
    }
    var all := found;
    if r.vulns.Listed? {
      var entries := r.vulns.entries;
      for i := 0 to |entries|
        invariant forall k :: 0 <= k < i ==> entries[k].Advisory? && entries[k].id != ""
        invariant all == found + (set k | 0 <= k < i && entries[k].Advisory? :: (package.id, entries[k].id))
      {
        if entries[i].NoId? || entries[i].id == "" {
          return Err(Malformed);
        }
        all := all + {(package.id, entries[i].id)};
      }
      assert all == found + Tag(package.id, Advisories(r));
    }
    return Ok(all);
  }

  /** One page of every pending package: all of it, or an error. */
  method StepPage(pending: seq<Entry>, replies: seq<Reply>, found: set<Finding>)
    returns (r: Result<(seq<Entry>, set<Finding>), Error>)
    requires |pending| == |replies|
    ensures r.Ok? <==> Sound(pending, replies)
    ensures r.Ok? ==> r.value == (NextEntries(pending, replies), found + PageFindings(pending, replies))
  {
    var next, all := [], found;
    for i := 0 to |pending|
      invariant Sound(pending[..i], replies[..i])
      invariant next == NextEntries(pending[..i], replies[..i])
      invariant all == found + PageFindings(pending[..i], replies[..i])
    {
      var e, reply := pending[i], replies[i];
      assert pending[..i + 1][..i] == pending[..i] && replies[..i + 1][..i] == replies[..i];
      assert PageFindings(pending[..i + 1], replies[..i + 1])
          == PageFindings(pending[..i], replies[..i]) + Tag(e.package.id, Advisories(reply)) by {
        PageFindingsGrow(pending, replies, i);
      }
      var page := ReadPage(e.package, reply, all);
      if page.Err? {
        return Err(page.error);
      }
      all := page.value;
      if !LastPage(reply) {
        if reply.token.BadToken? || reply.token.text in e.seen {
          return Err(PageToken);
        }
        next := next + [Entry(e.package, Some(reply.token.text), e.seen + {reply.token.text})];
      }
    }
    assert pending[..|pending|] == pending && replies[..|pending|] == replies;
    return Ok((next, all));
  }

  lemma PageFindingsGrow(pending: seq<Entry>, replies: seq<Reply>, i: nat)
    requires |pending| == |replies| && i < |pending|
    ensures PageFindings(pending[..i + 1], replies[..i + 1])
         == PageFindings(pending[..i], replies[..i]) + Tag(pending[i].package.id, Advisories(replies[i]))
  {
    var before := PageFindings(pending[..i], replies[..i]);
    var after := PageFindings(pending[..i + 1], replies[..i + 1]);
    forall f | f in before + Tag(pending[i].package.id, Advisories(replies[i])) ensures f in after {
      if f in before {
        var k, a :| 0 <= k < i && a in Advisories(replies[..i][k]) && f == (pending[..i][k].package.id, a);
        assert replies[..i + 1][k] == replies[..i][k];
      } else {
        assert replies[..i + 1][i] == replies[i];
      }
    }
  }

  // ---------------------------------------------------------------- one batch

  /** The packages of a batch that are still pending after `k` pages. */
  ghost function PendingOf(answer: Answer, batch: seq<Package>, k: nat): seq<Entry> {
    if batch == [] then [] else
      var t := TrackOf(answer, batch[|batch| - 1], k);
      PendingOf(answer, batch[..|batch| - 1], k) + (if t.Going? then [t.entry] else [])
  }

  ghost function AnswersTo(answer: Answer, entries: seq<Entry>): seq<Reply> {
    seq(|entries|, i requires 0 <= i < |entries| => answer(QueryOf(entries[i])))
  }

  /** What the first `k` pages of every package report. */
  ghost function FoundIn(answer: Answer, packages: seq<Package>, k: nat): set<Finding> {
    set p, a | p in packages && a in FoundBy(answer, p, k) :: (p.id, a)
  }

  ghost predicate NoneBroken(answer: Answer, packages: seq<Package>, k: nat) {
    forall p :: p in packages ==> !TrackOf(answer, p, k).Broken?
  }

  lemma {:induction false} PendingMeansGoing(answer: Answer, batch: seq<Package>, k: nat)
    ensures forall e :: e in PendingOf(answer, batch, k) ==>
              e.package in batch && TrackOf(answer, e.package, k) == Going(e)
    ensures forall p :: p in batch && TrackOf(answer, p, k).Going? ==>
      TrackOf(answer, p, k).entry in PendingOf(answer, batch, k)
  {
    if batch != [] {
      var rest, p := batch[..|batch| - 1], batch[|batch| - 1];
      PendingMeansGoing(answer, rest, k);
      assert batch == rest + [p];
      if TrackOf(answer, p, k).Going? {
        var tokens := GoingMeansFollowing(answer, p, k);
      }
    }
  }

  lemma {:induction false} PendingAdvances(answer: Answer, batch: seq<Package>, k: nat)
    ensures var pending := PendingOf(answer, batch, k);
            NextEntries(pending, AnswersTo(answer, pending)) == PendingOf(answer, batch, k + 1)
  {
    if batch != [] {
      var rest, p := batch[..|batch| - 1], batch[|batch| - 1];
      PendingAdvances(answer, rest, k);
      var before, pending := PendingOf(answer, rest, k), PendingOf(answer, batch, k);
      if TrackOf(answer, p, k).Going? {
        var e := TrackOf(answer, p, k).entry;
        assert pending == before + [e];
        assert pending[..|pending| - 1] == before;
        assert AnswersTo(answer, pending)[..|pending| - 1] == AnswersTo(answer, before);
        assert TrackOf(answer, p, k + 1) == Advance(e, AnswersTo(answer, pending)[|pending| - 1]);
      } else {
        assert pending == before;
      }
    }
  }

  lemma SoundMeansNoneBroken(answer: Answer, batch: seq<Package>, k: nat)
    requires NoneBroken(answer, batch, k)
    ensures var pending := PendingOf(answer, batch, k);
            Sound(pending, AnswersTo(answer, pending)) <==> NoneBroken(answer, batch, k + 1)
  {
    var pending := PendingOf(answer, batch, k);
    PendingMeansGoing(answer, batch, k);
    if Sound(pending, AnswersTo(answer, pending)) {
      forall p | p in batch ensures !TrackOf(answer, p, k + 1).Broken? {
        if TrackOf(answer, p, k).Going? {
          var i :| 0 <= i < |pending| && pending[i] == TrackOf(answer, p, k).entry;
          assert !Advance(pending[i], AnswersTo(answer, pending)[i]).Broken?;
        }
      }
    }
    if NoneBroken(answer, batch, k + 1) {
      forall i | 0 <= i < |pending| ensures !Advance(pending[i], AnswersTo(answer, pending)[i]).Broken? {
        assert pending[i] in pending;
        assert !TrackOf(answer, pending[i].package, k + 1).Broken?;
      }
    }
  }

  lemma FindingsAdvance(answer: Answer, batch: seq<Package>, k: nat)
    ensures var pending := PendingOf(answer, batch, k);
            FoundIn(answer, batch, k) + PageFindings(pending, AnswersTo(answer, pending)) ==
            FoundIn(answer, batch, k + 1)
  {
    var pending := PendingOf(answer, batch, k);
    var page := PageFindings(pending, AnswersTo(answer, pending));
    PendingMeansGoing(answer, batch, k);
    forall f | f in page ensures f in FoundIn(answer, batch, k + 1) {
      var i, a :|
        0 <= i < |pending| && a in Advisories(AnswersTo(answer, pending)[i]) && f == (pending[i].package.id, a);
      var p := pending[i].package;
      assert pending[i] in pending && p in batch && a in FoundBy(answer, p, k + 1);
    }
    forall f | f in FoundIn(answer, batch, k + 1) ensures f in FoundIn(answer, batch, k) + page {
      var p, a :| p in batch && a in FoundBy(answer, p, k + 1) && f == (p.id, a);
      if a !in FoundBy(answer, p, k) {
        var e := TrackOf(answer, p, k).entry;
        var i :| 0 <= i < |pending| && pending[i] == e;
        var tokens := GoingMeansFollowing(answer, p, k);
        assert a in Advisories(AnswersTo(answer, pending)[i]);
      }
    }
  }

  /** A track that has ended or broken stays so, and finds nothing more. */
  lemma {:induction false} FinishedStays(answer: Answer, p: Package, k: nat, n: nat)
    requires k <= n && !TrackOf(answer, p, k).Going?
    ensures TrackOf(answer, p, n) == TrackOf(answer, p, k) && FoundBy(answer, p, n) == FoundBy(answer, p, k)
  {
    if k < n {
      FinishedStays(answer, p, k, n - 1);
    }
  }

  ghost predicate AllEnded(answer: Answer, packages: seq<Package>) {
    forall p :: p in packages ==> TrackOf(answer, p, PAGES).Ended?
  }

  /** Once nothing is pending, the remaining pages would add nothing. */
  lemma NothingPending(answer: Answer, batch: seq<Package>, k: nat)
    requires k <= PAGES && NoneBroken(answer, batch, k)
    ensures PendingOf(answer, batch, k) == [] ==>
              AllEnded(answer, batch) && FoundIn(answer, batch, PAGES) == FoundIn(answer, batch, k)
    ensures k == PAGES && AllEnded(answer, batch) ==> PendingOf(answer, batch, k) == []
  {
    PendingMeansGoing(answer, batch, k);
    if PendingOf(answer, batch, k) == [] {
      forall p | p in batch
        ensures TrackOf(answer, p, PAGES).Ended? && FoundBy(answer, p, PAGES) == FoundBy(answer, p, k)
      {
        FinishedStays(answer, p, k, PAGES);
      }
      assert FoundIn(answer, batch, PAGES) == FoundIn(answer, batch, k);
    } else {
      assert PendingOf(answer, batch, k)[0] in PendingOf(answer, batch, k);
    }
  }

  lemma BrokenNeverEnds(answer: Answer, batch: seq<Package>, k: nat)
    requires k <= PAGES && !NoneBroken(answer, batch, k)
    ensures !AllEnded(answer, batch)
  {
    var p :| p in batch && TrackOf(answer, p, k).Broken?;
    FinishedStays(answer, p, k, PAGES);
  }

  /** The state of the page loop after `k` pages. */
  ghost predicate At(answer: Answer, batch: seq<Package>, k: nat, pending: seq<Entry>, found: set<Finding>) {
    pending == PendingOf(answer, batch, k) && found == FoundIn(answer, batch, k) && NoneBroken(answer, batch, k)
  }

  /** What one request for all pending packages comes to: everything the page reports, or an error. */
  ghost predicate Stepped(
    request: Request, pending: seq<Entry>, found: set<Finding>, page: Result<(seq<Entry>, set<Finding>), Error>)
  {
    var response := request(Queries(pending));
    && (page.Ok? <==> response.Replies? && |response.replies| == |pending| && Sound(pending, response.replies))
    && (page.Ok? ==>
          page.value == (NextEntries(pending, response.replies), found + PageFindings(pending, response.replies)))
  }

  /** One request for all pending packages; a reply list of another length is refused. */
  method RequestPage(request: Request, pending: seq<Entry>, found: set<Finding>)
    returns (page: Result<(seq<Entry>, set<Finding>), Error>)
    ensures Stepped(request, pending, found, page)
  {
    var response := request(Queries(pending));
    if response.NotAResponse? || |response.replies| != |pending| {
      return Err(IncompleteResponse);
    }
    page := StepPage(pending, response.replies, found);
  }

  /** The outcome a batch must have: everything its packages' chains report, exactly when all of them end in time. */
  ghost predicate BatchDone(answer: Answer, batch: seq<Package>, r: Result<set<Finding>, Error>) {
    && (r.Ok? <==> AllEnded(answer, batch))
    && (r.Ok? ==> r.value == FoundIn(answer, batch, PAGES))
  }

  lemma LoopEnds(chains: bool, answer: Answer, batch: seq<Package>, k: nat, pending: seq<Entry>, found: set<Finding>)
    requires k <= PAGES && (chains ==> At(answer, batch, k, pending, found))
    ensures chains && pending == [] ==> BatchDone(answer, batch, Ok(found))
    ensures chains && k == PAGES && pending != [] ==> BatchDone(answer, batch, Err(LimitReached))
  {
    if chains {
      NothingPending(answer, batch, k);
    }
  }

  /** A page of a chain provider moves every pending package on, or shows that one of them never ends. */
  lemma PageAdvances(request: Request, answer: Answer, batch: seq<Package>, k: nat,
                     pending: seq<Entry>, found: set<Finding>,
                     page: Result<(seq<Entry>, set<Finding>), Error>)
    requires k < PAGES && (ChainProvider(request, answer) ==> At(answer, batch, k, pending, found))
    requires Stepped(request, pending, found, page)
    ensures ChainProvider(request, answer) && page.Ok? ==> At(answer, batch, k + 1, page.value.0, page.value.1)
    ensures ChainProvider(request, answer) && page.Err? ==> BatchDone(answer, batch, Err(page.error))
  {
    if ChainProvider(request, answer) {
      AnswersArrive(request, answer, pending);
      PendingAdvances(answer, batch, k);
      SoundMeansNoneBroken(answer, batch, k);
      FindingsAdvance(answer, batch, k);
      if !NoneBroken(answer, batch, k + 1) {
        BrokenNeverEnds(answer, batch, k + 1);
      }
    }
  }

  // ---------------------------------------------------------------- any provider

  /** No page has been requested yet. */
  function Started(batch: seq<Package>): seq<Entry> {
    seq(|batch|, i requires 0 <= i < |batch| => Entry(batch[i], None, {}))
  }

  /** What is pending after some pages, and what they listed. */
  datatype Progress = Progress(pending: seq<Entry>, found: set<Finding>)

  /** What the pages of a run listed. */
  function FoundAfter(states: seq<Progress>): set<Finding>
    requires states != []
  {
    states[|states| - 1].found
  }

  /** One page: a response with one sound reply for every pending package. */
  ghost predicate Moves(request: Request, before: Progress, after: Progress) {
    Stepped(request, before.pending, before.found, Ok((after.pending, after.found)))
  }

  /** Page after page from the start of a batch, each asked for while something is pending. */
  ghost predicate Pages(request: Request, batch: seq<Package>, states: seq<Progress>) {
    && states != [] && states[0] == Progress(Started(batch), {})
    && (forall k: nat :: k + 1 < |states| ==> Moves(request, states[k], states[k + 1]))
    && (forall k: nat :: 0 < k < |states| - 1 ==> states[k].pending != [])
  }

  /** A run of at most 20 pages, and at least one, after which nothing is pending. */
  ghost predicate PageRun(request: Request, batch: seq<Package>, states: seq<Progress>) {
    Pages(request, batch, states) && 2 <= |states| <= PAGES + 1 && states[|states| - 1].pending == []
  }

  /** The pages of a batch are determined by the provider. */
  lemma {:induction false} PagesAgree(
    request: Request, batch: seq<Package>, a: seq<Progress>, b: seq<Progress>, k: nat)
    requires Pages(request, batch, a) && Pages(request, batch, b) && k < |a| && k < |b|
    ensures a[k] == b[k]
  {
    if k > 0 {
      PagesAgree(request, batch, a, b, k - 1);
      assert Moves(request, a[k - 1], a[k]) && Moves(request, b[k - 1], b[k]);
    }
  }

  /** A run cannot end earlier than another one. */
  lemma RunIsNoShorter(request: Request, batch: seq<Package>, run: seq<Progress>, states: seq<Progress>)
    requires PageRun(request, batch, run) && Pages(request, batch, states)
    ensures |states| <= |run|
  {
    if |run| < |states| {
      PagesAgree(request, batch, run, states, |run| - 1);
    }
  }

  lemma PageRunIsUnique(request: Request, batch: seq<Package>, a: seq<Progress>, b: seq<Progress>)
    requires PageRun(request, batch, a) && PageRun(request, batch, b)
    ensures a == b
  {
    RunIsNoShorter(request, batch, a, b);
    RunIsNoShorter(request, batch, b, a);
    forall k | 0 <= k < |a| ensures a[k] == b[k] {
      PagesAgree(request, batch, a, b, k);
    }
  }

  lemma NextPage(request: Request, batch: seq<Package>, states: seq<Progress>, k: nat)
    requires Pages(request, batch, states) && k + 1 < |states|
    ensures Moves(request, states[k], states[k + 1])
  {
  }

  /** After these pages a page is refused, or the limit is reached: the batch has no run. */
  lemma BatchFails(request: Request, batch: seq<Package>, states: seq<Progress>,
                   page: Result<(seq<Entry>, set<Finding>), Error>, run: seq<Progress>)
    requires Pages(request, batch, states) && (|states| > 1 ==> states[|states| - 1].pending != [])
    requires var last := states[|states| - 1];
      |states| == PAGES + 1 || (Stepped(request, last.pending, last.found, page) && page.Err?)
    ensures !PageRun(request, batch, run)
  {
    var n := |states|;
    if PageRun(request, batch, run) {
      RunIsNoShorter(request, batch, run, states);
      PagesAgree(request, batch, run, states, n - 1);
      if n < |run| {
        NextPage(request, batch, run, n - 1);
      }
    }
  }

  lemma PagesGrow(request: Request, batch: seq<Package>, states: seq<Progress>, next: Progress)
    requires Pages(request, batch, states) && Moves(request, states[|states| - 1], next)
    requires |states| > 1 ==> states[|states| - 1].pending != []
    ensures Pages(request, batch, states + [next])
  {
    var all := states + [next];
    forall k: nat | k + 1 < |all| ensures Moves(request, all[k], all[k + 1]) {
      if k + 1 < |states| {
        assert Moves(request, states[k], states[k + 1]);
      }
    }
  }

  /** The batch came to an end in a run of pages, and this is what they listed; or it has no run. */
  ghost predicate BatchRuns(request: Request, batch: seq<Package>, r: Result<set<Finding>, Error>) {
    match r
    case Ok(found) =>
      exists states :: PageRun(request, batch, states) && FoundAfter(states) == found
    case Err(_) => forall states :: !PageRun(request, batch, states)
  }

  /**
    * The page loop over one batch. Whatever the provider answers, the result is what the pages of the batch's run
    * listed, and a failure if it has none: never a part.
    */
  method AuditBatch(batch: seq<Package>, request: Request, ghost answer: Answer)
    returns (r: Result<set<Finding>, Error>)
    ensures BatchRuns(request, batch, r)
    ensures ChainProvider(request, answer) ==> BatchDone(answer, batch, r)
  {
    var pending := Started(batch);
    var found := {};
    StartPending(answer, batch);
    ghost var states := [Progress(pending, found)];
    for k := 0 to PAGES
      invariant |states| == k + 1 && Pages(request, batch, states) && states[k] == Progress(pending, found)
      invariant k > 0 ==> pending != []
      invariant ChainProvider(request, answer) ==> At(answer, batch, k, pending, found)
    {
      var page := RequestPage(request, pending, found);
      PageAdvances(request, answer, batch, k, pending, found, page);
      if page.Err? {
        forall run ensures !PageRun(request, batch, run) {
          BatchFails(request, batch, states, page, run);
        }
        return Err(page.error);
      }
      PagesGrow(request, batch, states, Progress(page.value.0, page.value.1));
      pending, found := page.value.0, page.value.1;
      states := states + [Progress(pending, found)];
      LoopEnds(ChainProvider(request, answer), answer, batch, k + 1, pending, found);
      if pending == [] {
        assert PageRun(request, batch, states);
        return Ok(found);
      }
    }
    LoopEnds(ChainProvider(request, answer), answer, batch, PAGES, pending, found);
    forall run ensures !PageRun(request, batch, run) {
      BatchFails(request, batch, states, Err(LimitReached), run);
    }
    return Err(LimitReached);
  }

  lemma {:induction false} StartPending(answer: Answer, batch: seq<Package>)
    ensures At(answer, batch, 0, Started(batch), {})
  {
    if batch != [] {
      StartPending(answer, batch[..|batch| - 1]);
    }
  }

  lemma AnswersArrive(request: Request, answer: Answer, pending: seq<Entry>)
    requires ChainProvider(request, answer)
    ensures request(Queries(pending)) == Replies(AnswersTo(answer, pending))
  {
    var queries := Queries(pending);
    assert seq(|queries|, i requires 0 <= i < |queries| => answer(queries[i])) == AnswersTo(answer, pending);
  }

  // ---------------------------------------------------------------- the whole query

  /** `findings` is exactly the union of all advisories on the full chain of every package. */
  ghost predicate Complete(answer: Answer, packages: seq<Package>, findings: set<Finding>) {
    forall id, a :: (id, a) in findings <==>
      exists p, tokens :: p in packages && p.id == id && IsChain(answer, p, tokens) && a in OnChain(answer, p, tokens)
  }

  lemma EndedIsComplete(answer: Answer, packages: seq<Package>)
    requires AllEnded(answer, packages)
    ensures Complete(answer, packages, FoundIn(answer, packages, PAGES))
  {
    forall id, a
      ensures (id, a) in FoundIn(answer, packages, PAGES) <==>
        exists p, tokens :: p in packages && p.id == id && IsChain(answer, p, tokens) && a in OnChain(answer, p, tokens)
    {
      if (id, a) in FoundIn(answer, packages, PAGES) {
        var p :| p in packages && a in FoundBy(answer, p, PAGES) && id == p.id;
        var tokens := EndedMeansChain(answer, p, PAGES);
      }
      if p, tokens :| p in packages && p.id == id && IsChain(answer, p, tokens) && a in OnChain(answer, p, tokens) {
        var same := EndedMeansChain(answer, p, PAGES);
        ChainIsUnique(answer, p, tokens, same);
        assert a in FoundBy(answer, p, PAGES);
      }
    }
  }

  /** Batch `b`. */
  function BatchAt(packages: seq<Package>, b: nat): seq<Package> {
    var from, to := b * BATCH, (b + 1) * BATCH;
    if |packages| <= from then [] else if |packages| <= to then packages[from..] else packages[from..to]
  }

  /** A run of every batch. */
  ghost predicate AuditRun(request: Request, packages: seq<Package>, runs: seq<seq<Progress>>) {
    && |packages| <= |runs| * BATCH < |packages| + BATCH
    && forall b: nat :: b < |runs| ==> PageRun(request, BatchAt(packages, b), runs[b])
  }

  /** What the pages of the first `n` batches listed. */
  ghost function Listing(runs: seq<seq<Progress>>): set<Finding>
    requires forall b :: 0 <= b < |runs| ==> runs[b] != []
  {
    set b, f | 0 <= b < |runs| && f in FoundAfter(runs[b]) :: f
  }

  /** `found` is what the pages of all batches list, all of which come to an end within their limits. */
  ghost predicate Audited(request: Request, packages: seq<Package>, found: set<Finding>) {
    exists runs :: AuditRun(request, packages, runs) && found == Listing(runs)
  }

  /** An audit has one result. */
  lemma AuditIsDetermined(request: Request, packages: seq<Package>, a: set<Finding>, b: set<Finding>)
    requires Audited(request, packages, a) && Audited(request, packages, b)
    ensures a == b
  {
    var x :| AuditRun(request, packages, x) && a == Listing(x);
    var y :| AuditRun(request, packages, y) && b == Listing(y);
    forall k | 0 <= k < |x| ensures x[k] == y[k] {
      PageRunIsUnique(request, BatchAt(packages, k), x[k], y[k]);
    }
    assert x == y;
  }

  lemma RunOfBatch(request: Request, packages: seq<Package>, runs: seq<seq<Progress>>, b: nat)
    requires AuditRun(request, packages, runs) && b < |runs|
    ensures PageRun(request, BatchAt(packages, b), runs[b])
  {
  }

  lemma {:induction false} NextEntriesAdvance(pending: seq<Entry>, replies: seq<Reply>, e: Entry) returns (i: nat)
    requires |pending| == |replies| && e in NextEntries(pending, replies)
    ensures i < |pending| && Advance(pending[i], replies[i]) == Going(e)
  {
    var last := |pending| - 1;
    if e in NextEntries(pending[..last], replies[..last]) {
      i := NextEntriesAdvance(pending[..last], replies[..last], e);
    } else {
      i := last;
    }
  }

  /** A package that is pending after `k` pages has followed `k` different tokens: none is followed twice. */
  lemma {:induction false} TokensAreDistinct(
    request: Request, batch: seq<Package>, states: seq<Progress>, k: nat, e: Entry)
    requires Pages(request, batch, states) && k < |states| && e in states[k].pending
    ensures |e.seen| == k && (if k == 0 then e.token.None? else e.token.Some? && e.token.value in e.seen)
  {
    if k > 0 {
      var before := states[k - 1];
      NextPage(request, batch, states, k - 1);
      var i := NextEntriesAdvance(before.pending, request(Queries(before.pending)).replies, e);
      TokensAreDistinct(request, batch, states, k - 1, before.pending[i]);
    } else {
      assert states[0].pending == Started(batch);
    }
  }

  /** What is pending and what was listed concern the packages of the batch. */
  lemma {:induction false} PagesConcernBatch(request: Request, batch: seq<Package>, states: seq<Progress>, k: nat)
    requires Pages(request, batch, states) && k < |states|
    ensures forall e :: e in states[k].pending ==> e.package in batch
    ensures forall f :: f in states[k].found ==> exists p :: p in batch && p.id == f.0
  {
    if k > 0 {
      var before := states[k - 1];
      PagesConcernBatch(request, batch, states, k - 1);
      NextPage(request, batch, states, k - 1);
      var replies := request(Queries(before.pending)).replies;
      forall e | e in states[k].pending ensures e.package in batch {
        var i := NextEntriesAdvance(before.pending, replies, e);
        assert before.pending[i] in before.pending;
      }
      forall f | f in states[k].found ensures exists p :: p in batch && p.id == f.0 {
        if f !in before.found {
          var i, a :|
            0 <= i < |before.pending| && a in Advisories(replies[i]) && f == (before.pending[i].package.id, a);
          assert before.pending[i] in before.pending;
        }
      }
    } else {
      assert states[0].pending == Started(batch);
    }
  }

  /** Every finding concerns one of the packages asked about. */
  lemma AuditConcernsPackages(request: Request, packages: seq<Package>, found: set<Finding>)
    requires Audited(request, packages, found)
    ensures forall f :: f in found ==> exists p :: p in packages && p.id == f.0
  {
    var runs :| AuditRun(request, packages, runs) && found == Listing(runs);
    forall f | f in found ensures exists p :: p in packages && p.id == f.0 {
      var b: nat :| b < |runs| && f in FoundAfter(runs[b]);
      RunOfBatch(request, packages, runs, b);
      PagesConcernBatch(request, BatchAt(packages, b), runs[b], |runs[b]| - 1);
      assert forall p :: p in BatchAt(packages, b) ==> p in packages;
    }
  }

  /** A batch without a run leaves the audit without a result. */
  lemma AuditFails(request: Request, packages: seq<Package>, b: nat, found: set<Finding>)
    requires b * BATCH < |packages| && forall states :: !PageRun(request, BatchAt(packages, b), states)
    ensures !Audited(request, packages, found)
  {
    if runs :| AuditRun(request, packages, runs) && found == Listing(runs) {
      RunOfBatch(request, packages, runs, b);
    }
  }

  lemma ListingGrows(runs: seq<seq<Progress>>, run: seq<Progress>)
    requires (forall b :: 0 <= b < |runs| ==> runs[b] != []) && run != []
    ensures Listing(runs + [run]) == Listing(runs) + FoundAfter(run)
  {
    var all := runs + [run];
    forall f | f in Listing(runs) + FoundAfter(run) ensures f in Listing(all) {
      if f in Listing(runs) {
        var b :| 0 <= b < |runs| && f in FoundAfter(runs[b]);
        assert all[b] == runs[b];
      } else {
        assert all[|runs|] == run;
      }
    }
  }

  /** The batches before `start` have come to their ends, and listed `found`. */
  ghost predicate RunsUpTo(
    request: Request, packages: seq<Package>, start: nat, runs: seq<seq<Progress>>, found: set<Finding>)
  {
    && start == (if |runs| * BATCH < |packages| then |runs| * BATCH else |packages|)
    && |runs| * BATCH < |packages| + BATCH
    && (forall b: nat :: b < |runs| ==> PageRun(request, BatchAt(packages, b), runs[b]))
    && found == Listing(runs)
  }

  lemma IsBatchAt(packages: seq<Package>, b: nat, start: nat, end: nat)
    requires start == b * BATCH < |packages|
    requires end == if start + BATCH <= |packages| then start + BATCH else |packages|
    ensures packages[start..end] == BatchAt(packages, b)
  {
  }

  /** One more batch came to its end. */
  lemma BatchEnds(request: Request, packages: seq<Package>, start: nat, end: nat, runs: seq<seq<Progress>>,
                  found: set<Finding>, part: set<Finding>) returns (more: seq<seq<Progress>>)
    requires RunsUpTo(request, packages, start, runs, found) && start < |packages|
    requires end == if start + BATCH <= |packages| then start + BATCH else |packages|
    requires BatchRuns(request, packages[start..end], Ok(part))
    ensures RunsUpTo(request, packages, end, more, found + part)
  {
    var run :| PageRun(request, packages[start..end], run) && FoundAfter(run) == part;
    IsBatchAt(packages, |runs|, start, end);
    more := runs + [run];
    forall b: nat | b < |more| ensures PageRun(request, BatchAt(packages, b), more[b]) {
      assert b < |runs| ==> more[b] == runs[b];
    }
    ListingGrows(runs, run);
  }

  lemma BatchHasNoRun(request: Request, packages: seq<Package>, start: nat, end: nat, runs: seq<seq<Progress>>,
                      found: set<Finding>, error: Error)
    requires RunsUpTo(request, packages, start, runs, found) && start < |packages|
    requires end == if start + BATCH <= |packages| then start + BATCH else |packages|
    requires BatchRuns(request, packages[start..end], Err(error))
    ensures forall all :: !Audited(request, packages, all)
  {
    IsBatchAt(packages, |runs|, start, end);
    forall all ensures !Audited(request, packages, all) {
      AuditFails(request, packages, |runs|, all);
    }
  }

  /** What is known of a provider of page chains when the batches before `start` have been asked for. */
  ghost predicate ChainsUpTo(answer: Answer, packages: seq<Package>, start: nat, found: set<Finding>) {
    && start <= |packages| && AllEnded(answer, packages[..start])
    && found == FoundIn(answer, packages[..start], PAGES)
  }

  lemma BatchOfChains(answer: Answer, packages: seq<Package>, start: nat, end: nat,
                      found: set<Finding>, part: Result<set<Finding>, Error>)
    requires start < end <= |packages| && ChainsUpTo(answer, packages, start, found)
    requires BatchDone(answer, packages[start..end], part)
    ensures part.Ok? ==> ChainsUpTo(answer, packages, end, found + part.value)
    ensures part.Err? ==> exists p :: p in packages && !Auditable(answer, p)
  {
    assert packages[..end] == packages[..start] + packages[start..end];
    if part.Err? {
      var p :| p in packages[start..end] && !TrackOf(answer, p, PAGES).Ended?;
      AuditableIffEnded(answer, p);
    }
  }

  lemma ChainsAreComplete(answer: Answer, packages: seq<Package>, found: set<Finding>)
    requires ChainsUpTo(answer, packages, |packages|, found)
    ensures Complete(answer, packages, found) && forall p :: p in packages ==> Auditable(answer, p)
  {
    assert packages[..|packages|] == packages;
    EndedIsComplete(answer, packages);
    forall p | p in packages ensures Auditable(answer, p) {
      AuditableIffEnded(answer, p);
    }
  }

  /**
    * The query over all batches. Whatever the provider answers, the result is what the pages of all batches list, and
    * a failure if some batch does not come to its end: never a part. Against any provider of page chains it returns
    * exactly when every package's chain is well formed and ends within the page limit, and then reports all of every
    * chain.
    */
  method AuditAll(packages: seq<Package>, request: Request, ghost answer: Answer)
    returns (r: Result<set<Finding>, Error>)
    ensures match r
      case Ok(found) => Audited(request, packages, found)
      case Err(_) => forall found :: !Audited(request, packages, found)
    ensures ChainProvider(request, answer) ==> (r.Ok? <==> forall p :: p in packages ==> Auditable(answer, p))
    ensures ChainProvider(request, answer) && r.Ok? ==> Complete(answer, packages, r.value)
  {
    var found := {};
    var start := 0;
    ghost var runs: seq<seq<Progress>> := [];
    ghost var chains := ChainProvider(request, answer);
    while start < |packages|
      invariant 0 <= start <= |packages| && RunsUpTo(request, packages, start, runs, found)
      invariant chains ==> ChainsUpTo(answer, packages, start, found)
    {
      var end := if start + BATCH <= |packages| then start + BATCH else |packages|;
      var part := AuditBatch(packages[start..end], request, answer);
      if chains {
        BatchOfChains(answer, packages, start, end, found, part);
      }
      if part.Err? {
        BatchHasNoRun(request, packages, start, end, runs, found, part.error);
        return Err(part.error);
      }
      runs := BatchEnds(request, packages, start, end, runs, found, part.value);
      found := found + part.value;
      start := end;
    }
    assert AuditRun(request, packages, runs);
    if chains {
      ChainsAreComplete(answer, packages, found);
    }
    return Ok(found);
  }
}
