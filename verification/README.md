# JobPilot job discovery and ranking, modelled in Dafny

JobPilot is a set of agents that find job postings, store them in a vector
collection, and rank them for a user. Most of the system is prompt text that
a language model follows. Two parts are ordinary code, and this project
models them:

- **The search-side tools of `main.py`.**
  - `chroma_query_tool` checks the query text and asks the job collection for
    its nearest neighbours. It copies one metadata record per returned
    document into a reply envelope. The envelope has the same shape on every
    path: invalid input, success, or an exception from the collection.
  - `rank_job_tool` keeps the jobs whose `score` is numeric. It sorts them by
    score, highest first; the sort is stable, so equal scores keep their
    input order. It then cuts the list at `top_k`.
- **The ingestion pipeline of `ingest_jobs.py`.**
  - `job_link_search` keeps the search hits whose link is a string that
    starts with `"http"`.
  - `parse_job_html` forces the job id (the first 16 hex digits of the URL's
    SHA-256) and `apply_url`, and fills in missing fields from
    `JOB_DETAILS_SCHEMA`.
  - `job_exists` and `insert_job` read and write the collection.
  - `ingest` walks the URLs, counting insertions and skips.

Files, one module each:

| file | module | what it holds |
|---|---|---|
| `py.dfy` | `Py` | Python values (`Value`), `Option`, `Result` (a call returns or raises), `dict.get`, `str.strip`, `str.startswith` |
| `ranking.dfy` | `Ranking` | `rank_job_tool` as pure functions: the filter, a stable descending insertion sort, the Python slice, and lemmas about the result |
| `chroma_query.dfy` | `ChromaQuery` | `chroma_query_tool` as a method with the copying loop |
| `link_search.dfy` | `LinkSearch` | `job_link_search` as a method with its filtering loop, proved against the function `HttpLinks` |
| `job_parsing.dfy` | `JobParsing` | the job id, `JOB_DETAILS_SCHEMA` and `parse_job_html` |
| `ingestion.dfy` | `Ingestion` | `fetch_html`; the class `JobsCollection`, whose `records` map holds id → (page, metadata), with `JobExists`, `InsertJob` and `Ingest`; the specification `Run`/`Step` of the ingest loop, and lemmas about it |

Foreign calls are inputs to the model:

- The collection's similarity search (`jobs_collection.query`) and the web
  search (`google_search`) are function parameters. A contract can therefore
  say which arguments reached them, and whether they were called at all.
- `ingest` calls the outside world several times per URL. The i-th URL's
  `Attempt` holds three answers:
  - the HTTP reply;
  - the extraction agent's dictionary;
  - whether the collection lookup in `job_exists` raised.
- SHA-256 is the parameter `sha256: string -> HexDigest`. It is a
  deterministic function to 64 lower-case hex digits. The UTF-8 encoding of
  the URL is folded into it.

Where the code and its stated intent differ, the model follows the code:

- `job_link_search` is documented as returning "clean http/https URLs"
  (ingest_jobs.py:74). The code checks only that the link starts with
  `"http"`, so `"httpfoo"` passes. `HttpLink` models the prefix test.
- A failed or empty fetch is neither inserted nor skipped (ingest_jobs.py:213-216).
  `RunCounts` states this: `inserted + skipped` equals the number of
  non-empty fetches.
- `job_exists` turns a failing lookup into `False` (ingest_jobs.py:186-187).
  The loop then calls `insert_job` for that URL and counts it as inserted,
  even when the id is already stored. The collection ignores an `add` for an
  id it already holds, so the stored record does not change (`AddIfAbsent`).
  When no lookup fails, `inserted` equals the number of records added
  (`RunInsertsNewIds`).
- `rank_job_tool` does not check `top_k`. A negative `top_k` is a Python
  slice bound that counts from the end (`RankedIsTopK`).
- `rank_job_tool` returns its list under `"ranked_jobs"` when `jobs` is not
  a list, and under `"jobs"` otherwise. These are two constructors of
  `RankReply`.

## Model

| member | source | states |
|---|---|---|
| `Py.Strip` | main.py:98 | `strip()` leaves nothing exactly when every character is Python whitespace, which is when the query text is rejected |
| `Ranking.ScoredJobs` | main.py:152 | the comprehension succeeds iff every element is a dictionary, and keeps at most as many jobs as it is given; otherwise the AttributeError of the first non-dictionary element escapes |
| `Ranking.ScoredJobsCounts` | main.py:152 | each job with a numeric score (int or bool) is kept exactly as often as it occurs in the input, and no other job is kept |
| `Ranking.ScoredJobsKeepsOrder` | main.py:152 | the filter keeps input order: for every score, the kept jobs with that score are the input's jobs with that score, in the same order |
| `Ranking.SortDescPermutes` | main.py:153 | the sort returns a permutation of its input (the same multiset of jobs) |
| `Ranking.SortDescSorted` | main.py:153 | the sort's output is ordered by score, highest first |
| `Ranking.SortKeepsTies` | main.py:153 | the sort is stable: for every score, the jobs with that score come out in their input order |
| `Ranking.RankJobTool` | main.py:142-161 | a non-list `jobs` gives the `ranked_jobs` envelope with an empty list, zero counts and the invalid-input error, and only then; the AttributeError escapes exactly when the list holds an element that is not a dictionary, with the message of the first such element; `top_k` is echoed; on success `total_jobs_in == len(jobs)` and `total_jobs_ranked == len(output) <= total_jobs_in` |
| `Ranking.RankedAreScoredInputs` | main.py:152-160 | every output job is an unmodified input dictionary with a numeric score, and no job occurs in the output more often than in the input |
| `Ranking.RankedIsSortedDesc` | main.py:153-154 | the output is ordered by score, highest first |
| `Ranking.RankedKeepsTieOrder` | main.py:152-154 | for every score, the output's jobs with that score are the first of the input list's jobs with that score, in input order |
| `Ranking.RankedIsTopK` | main.py:153-154 | for every `top_k` the output is a prefix of the sorted scored jobs: `min(top_k, #scored)` of them for `top_k >= 0`, `max(0, #scored + top_k)` for a negative `top_k`; every scored job left out scores at most every job kept |
| `Ranking.TiesExample` | main.py:152-161 | scores 90, 60, 90 with `top_k == 2` give the two 90s in input order, with counts 3 and 2 |
| `ChromaQuery.ChromaQueryTool` | main.py:77-138 | query text and `top_k` are echoed on every path and `num_returned == len(results)`; a non-string or blank query returns no results and the invalid-query error without calling the collection; a valid query calls it once with `(query_text, top_k)`; an exception from it gives no results and an error prefixed `CHROMA_EXCEPTION: `; otherwise `results[i]` is the i-th entry of the first metadata row, one per document, with no error, unless the metadata does not cover the documents, which is reported as a `CHROMA_EXCEPTION` |
| `ChromaQuery.CollectMetadata` | main.py:113-121 | the copying loop succeeds iff the first metadata row has an entry for every document of the first row; it then returns those entries in order, one per document; otherwise it raises the `NoneType` or index error that Python raises |
| `LinkSearch.HttpLinks` | ingest_jobs.py:80-84 | succeeds iff every hit is a dictionary (otherwise the AttributeError of the first non-dictionary hit); at most one link per hit |
| `LinkSearch.HttpLinksInOrder` | ingest_jobs.py:80-84 | the kept links are the hits' `"http"` links in the hits' order, exactly one per hit that offers one, duplicates included |
| `LinkSearch.HttpLinksMembers` | ingest_jobs.py:80-84 | a string is among the kept links iff some hit's `link` is that string and starts with `"http"` |
| `LinkSearch.JobLinkSearch` | ingest_jobs.py:71-89 | echoes the query; `count == len(urls)`; the loop returns exactly the links of `HttpLinks`, in order; a raising search, or a hit that is not a dictionary, gives `count == 0`, no URLs and the error message |
| `LinkSearch.PrefixRaises` | ingest_jobs.py:76-89 | once a non-dictionary hit is reached, the whole search reports that hit's exception, whatever follows it |
| `JobParsing.JobId` | ingest_jobs.py:164 | the job id has 16 lower-case hex digits, is a prefix of the URL's SHA-256 digest, and depends on the URL alone |
| `JobParsing.SchemaEnforced` | ingest_jobs.py:163-179 | the parsed record has exactly the agent's keys plus every schema key; `job_id` is the URL's id and `apply_url` is the URL, whatever the agent said; every other field the agent gave keeps its value; every schema field it left out has the schema default |
| `JobParsing.ParseJobHtml` | ingest_jobs.py:163-179 | overwriting `job_id` and `apply_url` in the agent's dictionary, then `setdefault` for every schema field, yields exactly `SchemaEnforced` |
| `JobParsing.ParsedIdIgnoresPage` | ingest_jobs.py:164-172 | two parses of the same URL carry the same 16-character `job_id`, whatever the page or the agent's reply |
| `Ingestion.FetchHtml` | ingest_jobs.py:110-118 | a page is returned iff the reply has status 200, and it is the reply's body |
| `Ingestion.AddIfAbsent` | ingest_jobs.py:190-195 | after an add, the id is stored; records already present are never changed; a new id gets the given (page, metadata) record |
| `Ingestion.JobsCollection.JobExists` | ingest_jobs.py:182-187 | true iff the lookup did not raise and the id is stored |
| `Ingestion.JobsCollection.InsertJob` | ingest_jobs.py:190-195 | stores `(raw_html, job_details)` under the record's `job_id` when that id is new, and leaves the collection unchanged otherwise |
| `Ingestion.JobsCollection.IngestUrl` | ingest_jobs.py:210-228 | one pass of the loop body changes the collection and the counters as `Step` prescribes: nothing for a failed or empty fetch, a skip for a stored id, otherwise an insertion; the page is parsed (the extraction agent called) exactly when the fetch gave a non-empty page, whether or not the id is already stored |
| `Ingestion.JobsCollection.Ingest` | ingest_jobs.py:199-228 | the loop leaves the collection and counters as `Run` prescribes; `inserted + skipped` is the number of non-empty fetches and at most `len(urls)`; records stored before the run are unchanged; the extraction agent is called for exactly the fetched URLs, in order (`FetchedUrls`) |
| `Ingestion.FetchedUrlsExactly` | ingest_jobs.py:210-218 | the agent is asked once per non-empty fetch, and a URL is asked about iff one of its fetches gave a non-empty page; a failed or empty fetch is never parsed |
| `Ingestion.RunCounts` | ingest_jobs.py:207-228 | each URL with a non-empty page adds one to exactly one counter; a failed or empty fetch adds to neither |
| `Ingestion.RunKeepsRecords` | ingest_jobs.py:210-228 | a run never changes or removes a stored record; every record it adds is stored under a fetched URL's id and holds that fetch's page and parsed metadata |
| `Ingestion.RunStoresFetched` | ingest_jobs.py:213-228 | after a run, the id of every URL whose page was fetched is stored |
| `Ingestion.RunInsertsNewIds` | ingest_jobs.py:221-228 | when no lookup raises, `inserted` equals the number of records the run added, so each stored id was inserted once |
| `Ingestion.RepeatedUrl` | ingest_jobs.py:210-228 | the same new URL ingested n times, every fetch succeeding and no lookup raising, is stored once, from the first fetch, with one insertion and n - 1 skips |
| `Ingestion.RepeatedUrlSkipped` | ingest_jobs.py:210-228 | at any position of a run with working lookups, a URL fetched earlier in the run that is fetched again only adds one skip: records and insertion count are unchanged |
| `Ingestion.ReingestChangesNothing` | ingest_jobs.py:221-224 | when every URL's id is already stored and lookups work, a run changes no record, inserts nothing and counts each non-empty fetch as a skip |
| `Ingestion.IngestTwice` | ingest_jobs.py:199-228 | running the same URLs again, after a first run in which every page was fetched, and with no lookup of the second run raising, leaves the collection and the insertion count as the first run left them |

## Left out

- Embeddings (`LocalEmbeddingFunction`, SentenceTransformer) and chromadb's cosine-similarity ranking are left out. They are a foreign library and use floating point. The search is the parameter `store`, so the model does not bound the number of hits by `top_k`; that bound is the collection's job.
- Opening the persistent collection is left out: `connect_to_chromadb` (ingest_jobs.py:58-65) and the module-level `client`/`jobs_collection` setup (main.py:67-75). `Ingest` starts from whatever records the collection already holds.
- `get_job_urls` is left out. It only forwards the `urls` entry of `job_link_search`'s reply, which every path of that reply has.
- Network and agent calls are inputs, not models: `requests.get`, `google_search` and `html_extractor_agent.run`. No timeouts are modelled. The `n_results` argument is only passed to the search.
- Floating-point scores are left out: `Value` has no float. Int and bool scores are modelled.
- `top_k` is taken to be an integer in `Ranking.RankJobTool` and `ChromaQuery.ChromaQueryTool`. The source never checks it: `ranked[:None]` would return the whole list, and a float would make `rank_job_tool` raise an uncaught TypeError. Neither case is modelled.
- `Ranking.ScoredJobs`: a job with a float score would be kept by the source. The model has no floats, so it never sees one.
- Exceptions the source does not catch are left out: an agent reply that is not a dictionary, a raising extraction agent in `ingest`, and a raising `collection.add`.
- Some odd reply shapes are left out. A `search_results` entry that is not a list is not modelled, and neither is a `documents` entry that is present but `None`.
- `ChromaQuery.ChromaQueryTool`: a `metadatas` entry missing from the reply (a KeyError) is modelled as the `None` case, so its error text is the `NoneType` message.
- SHA-256 internals and the UTF-8 encoding of the URL are folded into the `sha256` parameter.
- Python dictionaries keep insertion order; `map` does not. No modelled property depends on key order.
- Chromadb accepts only scalar metadata values. The model stores list-valued fields such as `requirements` as they are. Every record `parse_job_html` returns holds the list-valued fields `requirements`, `qualifications` and `skills_mentioned` (its `setdefault`, ingest_jobs.py:176-177). A chromadb that enforces scalar metadata would therefore make every `insert_job` raise, and since that exception is not caught, `ingest()` would stop at the first new id. The modelled insertion path is the behaviour the code intends, not that of such a library.
- Logging and `print` output are left out, as are the agent and runner wiring (main.py:33-45, 165-269), the `main()` driver (main.py:274-313), and Kaggle secrets and dotenv.
- `instructions.py` is not part of this model. It holds only prompt text. Profile extraction, query composition, rejection-memory filtering, the pass/score check and summarising are done by the language model following that text; no code does them.
- `schemas.py` is not part of this model. Its `JOB_DETAILS_SCHEMA` is the same as the one at ingest_jobs.py:28-40, which `JobParsing.JobDetailsSchema` models.
- There is no concurrency in the source, so none is modelled.
