/** The ingestion run of ingest_jobs.py: for each discovered URL, fetch the
    page, parse it into a job record, and add it to the job collection unless
    its id is already there, counting insertions and skips.

    The outside world is an input: for the i-th URL, `attempts[i]` holds the
    HTTP reply, the extraction agent's reply and whether the collection's
    lookup raised. The collection itself is the class `JobsCollection`, whose
    `records` map each job id to its stored page and metadata. */
module Ingestion {
  import opened Py
  import opened JobParsing

  /** What `requests.get(url, headers=HEADERS, timeout=12)` does. */
  datatype HttpReply = Response(statusCode: int, text: string) | FetchError(message: string)

  /** `fetch_html(url)`: the body of a 200 reply, `None` for any other status or a network error. */
  function FetchHtml(reply: HttpReply): (html: Option<string>)
    ensures html.Some? <==> reply.Response? && reply.statusCode == 200
    ensures html.Some? ==> html.value == reply.text
  {
    match reply
    case Response(status, text) => if status == 200 then Some(text) else None
    case FetchError(_) => None
  }

  /** The outside world's answers while one URL is processed. */
  datatype Attempt = Attempt(page: HttpReply, extracted: map<string, Value>, lookupFails: bool)

  /** One entry of the collection: the raw page as the document and the parsed record as metadata. */
  datatype StoredJob = StoredJob(document: string, metadata: map<string, Value>)

  /** The collection's records and the run's two counters. */
  datatype Tally = Tally(records: map<string, StoredJob>, inserted: nat, skipped: nat)

  /** `if not html`: the fetch produced a non-empty page. */
  predicate Fetched(a: Attempt)
  {
    FetchHtml(a.page).Some? && FetchHtml(a.page).value != ""
  }

  /** The page of a fetched attempt. */
  function Page(a: Attempt): string
    requires Fetched(a)
  {
    FetchHtml(a.page).value
  }

  /** `collection.add` with one id: a new id gets the record; an id already
      present keeps its record, since the collection ignores a duplicate id. */
  function AddIfAbsent(records: map<string, StoredJob>, id: string, job: StoredJob): (r: map<string, StoredJob>)
    ensures id in r && r.Keys == records.Keys + {id}
    ensures forall k :: k in records ==> r[k] == records[k]
    ensures id !in records ==> r[id] == job
  {
    if id in records then records else records[id := job]
  }

  /** One pass of the loop body of `ingest()` on `url`. */
  function Step(t: Tally, url: string, a: Attempt, sha256: string -> HexDigest): Tally
  {
    if !Fetched(a) then t
    else
      var id := JobId(sha256, url);
      if !a.lookupFails && id in t.records then t.(skipped := t.skipped + 1)
      else
        var parsed := SchemaEnforced(a.extracted, url, id);
        Tally(AddIfAbsent(t.records, id, StoredJob(Page(a), parsed)), t.inserted + 1, t.skipped)
  }

  /** The loop of `ingest()` over `urls`, from the state `t`. */
  function Run(t: Tally, urls: seq<string>, attempts: seq<Attempt>, sha256: string -> HexDigest): Tally
    requires |urls| == |attempts|
    decreases |urls|
  {
    if urls == [] then t
    else
      var n := |urls| - 1;
      Step(Run(t, urls[..n], attempts[..n], sha256), urls[n], attempts[n], sha256)
  }

  /** How many attempts fetched a non-empty page. */
  function FetchedCount(attempts: seq<Attempt>): (n: nat)
    ensures n <= |attempts|
  {
    if attempts == [] then 0
    else FetchedCount(attempts[..|attempts| - 1]) + (if Fetched(attempts[|attempts| - 1]) then 1 else 0)
  }

  /** The URLs whose page was fetched, in order: those the extraction agent is asked about. */
  function FetchedUrls(urls: seq<string>, attempts: seq<Attempt>): seq<string>
    requires |urls| == |attempts|
  {
    if urls == [] then []
    else
      var n := |urls| - 1;
      FetchedUrls(urls[..n], attempts[..n]) + (if Fetched(attempts[n]) then [urls[n]] else [])
  }

  /** The agent is asked once per non-empty fetch, and about nothing else: a
      failed or empty fetch is never parsed, while a fetched URL whose id is
      already stored still is. */
  lemma {:induction false} FetchedUrlsExactly(urls: seq<string>, attempts: seq<Attempt>)
    requires |urls| == |attempts|
    ensures |FetchedUrls(urls, attempts)| == FetchedCount(attempts)
    ensures forall u :: u in FetchedUrls(urls, attempts) <==>
      exists i :: 0 <= i < |urls| && Fetched(attempts[i]) && urls[i] == u
  {
    if urls != [] {
      var n := |urls| - 1;
      FetchedUrlsExactly(urls[..n], attempts[..n]);
      forall u
        ensures u in FetchedUrls(urls, attempts) <==>
          exists i :: 0 <= i < |urls| && Fetched(attempts[i]) && urls[i] == u
      {
        if exists i :: 0 <= i < |urls| && Fetched(attempts[i]) && urls[i] == u {
          var i :| 0 <= i < |urls| && Fetched(attempts[i]) && urls[i] == u;
          if i < n {
            assert urls[..n][i] == u && attempts[..n][i] == attempts[i];
          }
        }
        if u in FetchedUrls(urls[..n], attempts[..n]) {
          var i :| 0 <= i < n && Fetched(attempts[..n][i]) && urls[..n][i] == u;
          assert attempts[i] == attempts[..n][i];
        }
      }
    }
  }

  /** No lookup on the collection raised. */
  predicate LookupsSucceed(attempts: seq<Attempt>)
  {
    forall i :: 0 <= i < |attempts| ==> !attempts[i].lookupFails
  }

  class JobsCollection {
    var records: map<string, StoredJob>

    constructor ()
      ensures records == map[]
    {
      records := map[];
    }

    /** `job_exists(collection, job_id)`: whether the lookup finds the id;
        false whenever the lookup raises. */
    method JobExists(jobId: string, lookupFails: bool) returns (present: bool)
      ensures present <==> !lookupFails && jobId in records
    {
      if lookupFails {
        return false;
      }
      present := jobId in records;
    }

    /** `insert_job(collection, job_details, raw_html)`. */
    method InsertJob(details: map<string, Value>, rawHtml: string)
      requires "job_id" in details && details["job_id"].Str?
      modifies this
      ensures records == AddIfAbsent(old(records), details["job_id"].s, StoredJob(rawHtml, details))
    {
      var id := details["job_id"].s;
      if id !in records {
        records := records[id := StoredJob(rawHtml, details)];
      }
    }

    /** One pass of the loop body of `ingest()`: fetch, parse, look up, insert. */
    method IngestUrl(url: string, attempt: Attempt, sha256: string -> HexDigest, inserted: nat, skipped: nat)
      returns (inserted': nat, skipped': nat, agentCalls: seq<string>)
      modifies this
      ensures Tally(records, inserted', skipped') == Step(Tally(old(records), inserted, skipped), url, attempt, sha256)
      // The page is parsed (the agent called) exactly when the fetch gave a non-empty page.
      ensures agentCalls == if Fetched(attempt) then [url] else []
    {
      inserted', skipped', agentCalls := inserted, skipped, [];
      var html := FetchHtml(attempt.page);
      if html.None? || html.value == "" {
        return;
      }
      agentCalls := [url];
      var parsed := ParseJobHtml(html.value, url, sha256, attempt.extracted);
      var jobId := parsed["job_id"].s;
      var present := JobExists(jobId, attempt.lookupFails);
      if present {
        skipped' := skipped + 1;
        return;
      }
      InsertJob(parsed, html.value);
      inserted' := inserted + 1;
    }

    /** `ingest()` over the discovered `urls`. */
    method Ingest(urls: seq<string>, attempts: seq<Attempt>, sha256: string -> HexDigest)
      returns (inserted: nat, skipped: nat, agentCalls: seq<string>)
      requires |attempts| == |urls|
      modifies this
      ensures Tally(records, inserted, skipped) == Run(Tally(old(records), 0, 0), urls, attempts, sha256)
      ensures agentCalls == FetchedUrls(urls, attempts)
      ensures inserted + skipped == FetchedCount(attempts) <= |urls|
      ensures forall k :: k in old(records) ==> k in records && records[k] == old(records)[k]
    {
      inserted, skipped, agentCalls := 0, 0, [];
      var i := 0;
      while i < |urls|
        invariant 0 <= i <= |urls|
        invariant Tally(records, inserted, skipped) == Run(Tally(old(records), 0, 0), urls[..i], attempts[..i], sha256)
        invariant agentCalls == FetchedUrls(urls[..i], attempts[..i])
      {
        assert urls[..i + 1][..i] == urls[..i];
        assert attempts[..i + 1][..i] == attempts[..i];
        var called;
        inserted, skipped, called := IngestUrl(urls[i], attempts[i], sha256, inserted, skipped);
        agentCalls := agentCalls + called;
        i := i + 1;
      }
      assert urls[..i] == urls && attempts[..i] == attempts;
      RunCounts(Tally(old(records), 0, 0), urls, attempts, sha256);
      RunKeepsRecords(Tally(old(records), 0, 0), urls, attempts, sha256);
    }
  }

  /** Every fetched URL is counted exactly once, as inserted or as skipped;
      a failed fetch is counted as neither. */
  lemma {:induction false} RunCounts(t: Tally, urls: seq<string>, attempts: seq<Attempt>, sha256: string -> HexDigest)
    requires |urls| == |attempts|
    ensures var r := Run(t, urls, attempts, sha256);
      r.inserted + r.skipped == t.inserted + t.skipped + FetchedCount(attempts)
  {
    if urls != [] {
      var n := |urls| - 1;
      RunCounts(t, urls[..n], attempts[..n], sha256);
    }
  }

  /** A run never changes or removes a stored record, and every record it adds
      is the page and parsed metadata of a fetched URL, under that URL's id. */
  lemma {:induction false} RunKeepsRecords(t: Tally, urls: seq<string>, attempts: seq<Attempt>, sha256: string -> HexDigest)
    requires |urls| == |attempts|
    ensures var r := Run(t, urls, attempts, sha256);
      forall k :: k in t.records ==> k in r.records && r.records[k] == t.records[k]
    ensures var r := Run(t, urls, attempts, sha256);
      forall k :: k in r.records && k !in t.records ==>
        exists i :: 0 <= i < |urls| && Fetched(attempts[i]) && k == JobId(sha256, urls[i]) &&
          r.records[k] == StoredJob(Page(attempts[i]), SchemaEnforced(attempts[i].extracted, urls[i], k))
  {
    if urls != [] {
      var n := |urls| - 1;
      var mid := Run(t, urls[..n], attempts[..n], sha256);
      RunKeepsRecords(t, urls[..n], attempts[..n], sha256);
      var r := Run(t, urls, attempts, sha256);
      forall k | k in r.records && k !in t.records
        ensures exists i :: 0 <= i < |urls| && Fetched(attempts[i]) && k == JobId(sha256, urls[i]) &&
                            r.records[k] == StoredJob(Page(attempts[i]), SchemaEnforced(attempts[i].extracted, urls[i], k))
      {
        if k in mid.records {
          var i :| 0 <= i < n && Fetched(attempts[..n][i]) && k == JobId(sha256, urls[..n][i]) &&
            mid.records[k] == StoredJob(Page(attempts[..n][i]), SchemaEnforced(attempts[..n][i].extracted, urls[..n][i], k));
          assert attempts[..n][i] == attempts[i] && urls[..n][i] == urls[i];
        } else {
          assert Fetched(attempts[n]) && k == JobId(sha256, urls[n]);
        }
      }
    }
  }

  /** After a run, the id of every URL whose page was fetched is stored. */
  lemma {:induction false} RunStoresFetched(t: Tally, urls: seq<string>, attempts: seq<Attempt>, sha256: string -> HexDigest)
    requires |urls| == |attempts|
    ensures var r := Run(t, urls, attempts, sha256);
      forall i :: 0 <= i < |urls| && Fetched(attempts[i]) ==> JobId(sha256, urls[i]) in r.records
  {
    if urls != [] {
      var n := |urls| - 1;
      RunStoresFetched(t, urls[..n], attempts[..n], sha256);
      RunKeepsRecords(Run(t, urls[..n], attempts[..n], sha256), [urls[n]], [attempts[n]], sha256);
      var r := Run(t, urls, attempts, sha256);
      forall i | 0 <= i < n && Fetched(attempts[i])
        ensures JobId(sha256, urls[i]) in r.records
      {
        assert attempts[..n][i] == attempts[i] && urls[..n][i] == urls[i];
      }
    }
  }

  /** When no lookup raises, `inserted` counts exactly the records the run added. */
  lemma {:induction false} RunInsertsNewIds(t: Tally, urls: seq<string>, attempts: seq<Attempt>, sha256: string -> HexDigest)
    requires |urls| == |attempts| && LookupsSucceed(attempts)
    ensures var r := Run(t, urls, attempts, sha256);
      r.inserted >= t.inserted && |r.records| == |t.records| + (r.inserted - t.inserted)
  {
    if urls != [] {
      var n := |urls| - 1;
      assert LookupsSucceed(attempts[..n]);
      RunInsertsNewIds(t, urls[..n], attempts[..n], sha256);
    }
  }

  /** Ingesting the same URL n times, every fetch succeeding, stores one record
      (from the first fetch) and counts one insertion and n - 1 skips. */
  lemma {:induction false} RepeatedUrl(t: Tally, url: string, attempts: seq<Attempt>, sha256: string -> HexDigest)
    requires |attempts| >= 1 && LookupsSucceed(attempts)
    requires forall i :: 0 <= i < |attempts| ==> Fetched(attempts[i])
    requires JobId(sha256, url) !in t.records
    ensures var id := JobId(sha256, url);
      Run(t, seq(|attempts|, _ => url), attempts, sha256) ==
        Tally(t.records[id := StoredJob(Page(attempts[0]), SchemaEnforced(attempts[0].extracted, url, id))],
              t.inserted + 1, t.skipped + |attempts| - 1)
  {
    var n := |attempts| - 1;
    var urls := seq(|attempts|, _ => url);
    assert urls[..n] == seq(n, _ => url);
    if n > 0 {
      assert LookupsSucceed(attempts[..n]);
      RepeatedUrl(t, url, attempts[..n], sha256);
    } else {
      assert urls[..n] == [];
    }
  }

  /** Anywhere in a run with working lookups, a URL that was already fetched
      earlier is only counted as a skip when its page is fetched again: the
      collection and the insertion count stay as they were. */
  lemma RepeatedUrlSkipped(t: Tally, urls: seq<string>, attempts: seq<Attempt>, sha256: string -> HexDigest,
                           i: nat, j: nat)
    requires |urls| == |attempts| && LookupsSucceed(attempts)
    requires i < j < |urls| && urls[i] == urls[j]
    requires Fetched(attempts[i]) && Fetched(attempts[j])
    ensures var before := Run(t, urls[..j], attempts[..j], sha256);
      Run(t, urls[..j + 1], attempts[..j + 1], sha256) == before.(skipped := before.skipped + 1)
  {
    RunStoresFetched(t, urls[..j], attempts[..j], sha256);
    assert urls[..j][i] == urls[i] && attempts[..j][i] == attempts[i];
    assert urls[..j + 1][..j] == urls[..j] && attempts[..j + 1][..j] == attempts[..j];
  }

  /** Ingestion is idempotent: once every URL's id is stored, another run with
      working lookups adds nothing, changes nothing and only counts skips. */
  lemma {:induction false} ReingestChangesNothing(t: Tally, urls: seq<string>, attempts: seq<Attempt>, sha256: string -> HexDigest)
    requires |urls| == |attempts| && LookupsSucceed(attempts)
    requires forall i :: 0 <= i < |urls| ==> JobId(sha256, urls[i]) in t.records
    ensures Run(t, urls, attempts, sha256) == t.(skipped := t.skipped + FetchedCount(attempts))
  {
    if urls != [] {
      var n := |urls| - 1;
      assert LookupsSucceed(attempts[..n]);
      ReingestChangesNothing(t, urls[..n], attempts[..n], sha256);
    }
  }

  /** Running the same URLs a second time, after a first run in which every
      page was fetched, leaves the collection as the first run left it. */
  lemma IngestTwice(t: Tally, urls: seq<string>, first: seq<Attempt>, second: seq<Attempt>, sha256: string -> HexDigest)
    requires |urls| == |first| == |second| && LookupsSucceed(second)
    requires forall i :: 0 <= i < |first| ==> Fetched(first[i])
    ensures var once := Run(t, urls, first, sha256);
      var twice := Run(once, urls, second, sha256);
      twice.records == once.records && twice.inserted == once.inserted
  {
    RunStoresFetched(t, urls, first, sha256);
    ReingestChangesNothing(Run(t, urls, first, sha256), urls, second, sha256);
  }
}
