/** The identity and schema rules of ingest_jobs.py: the job id derived from
    the URL, `JOB_DETAILS_SCHEMA`, and `parse_job_html`, which overrides what
    the extraction agent says about the id and the URL and fills in missing
    fields. SHA-256 is foreign: it is the parameter `sha256`, a deterministic
    function to 64 lower-case hexadecimal digits. */
module JobParsing {
  import opened Py

  predicate IsLowerHex(c: char)
  {
    ('0' <= c <= '9') || ('a' <= c <= 'f')
  }

  /** `n` zero digits. */
  function Zeros(n: nat): (s: string)
    ensures |s| == n && forall i :: 0 <= i < n ==> s[i] == '0'
  {
    if n == 0 then "" else Zeros(n - 1) + "0"
  }

  /** The result of `hashlib.sha256(...).hexdigest()`. */
  type HexDigest = s: string | |s| == 64 && forall i :: 0 <= i < |s| ==> IsLowerHex(s[i])
    witness Zeros(64)

  /** The width of a job id. */
  const JobIdLength: nat := 16

  /** `hashlib.sha256(url.encode()).hexdigest()[:16]`: a 16-digit hexadecimal
      id that depends on the URL alone. */
  function JobId(sha256: string -> HexDigest, url: string): (id: string)
    ensures |id| == JobIdLength
    ensures forall i :: 0 <= i < |id| ==> IsLowerHex(id[i])
    ensures StartsWith(sha256(url), id)
  {
    sha256(url)[..JobIdLength]
  }

  /** `JOB_DETAILS_SCHEMA`: every field of a job record and its empty default. */
  const JobDetailsSchema: map<string, Value> := map[
    "job_id" := Str(""),
    "title" := Str(""),
    "company" := Str(""),
    "location" := Str(""),
    "employment_type" := Str(""),
    "salary" := Str(""),
    "job_description" := Str(""),
    "requirements" := List([]),
    "qualifications" := List([]),
    "skills_mentioned" := List([]),
    "apply_url" := Str("")
  ]

  /** The record `parse_job_html` returns for the agent's reply `extracted`:
      the id and the URL forced, every other field the agent gave kept, and
      the schema's default for every schema field it left out. */
  function SchemaEnforced(extracted: map<string, Value>, url: string, jobId: string): (m: map<string, Value>)
    ensures m.Keys == extracted.Keys + JobDetailsSchema.Keys
    ensures m["job_id"] == Str(jobId) && m["apply_url"] == Str(url)
    ensures forall k :: k in extracted && k != "job_id" && k != "apply_url" ==> m[k] == extracted[k]
    ensures forall k :: k in JobDetailsSchema && k !in extracted && k != "job_id" && k != "apply_url" ==>
      m[k] == JobDetailsSchema[k]
  {
    map k | k in extracted.Keys + JobDetailsSchema.Keys ::
      if k == "job_id" then Str(jobId)
      else if k == "apply_url" then Str(url)
      else if k in extracted then extracted[k]
      else JobDetailsSchema[k]
  }

  /** `parse_job_html(html, url)`, given the extraction agent's reply to
      `{"url": url, "html": html}`. The reply is a dictionary updated in place:
      the id and URL are written over it, then `setdefault` runs for every
      schema field. */
  method ParseJobHtml(html: string, url: string, sha256: string -> HexDigest, extracted: map<string, Value>)
    returns (response: map<string, Value>)
    ensures response == SchemaEnforced(extracted, url, JobId(sha256, url))
  {
    var jobId := JobId(sha256, url);
    response := extracted;
    response := response["job_id" := Str(jobId)];
    response := response["apply_url" := Str(url)];
    ghost var forced := response;
    var todo := JobDetailsSchema.Keys;
    while todo != {}
      invariant todo <= JobDetailsSchema.Keys
      invariant response.Keys == forced.Keys + (JobDetailsSchema.Keys - todo)
      invariant forall k :: k in response ==>
        response[k] == if k in forced then forced[k] else JobDetailsSchema[k]
      decreases todo
    {
      var k :| k in todo;
      if k !in response {
        response := response[k := JobDetailsSchema[k]];
      }
      todo := todo - {k};
    }
  }

  /** The id a parsed record carries depends on its URL alone: neither the
      page nor the agent's reply changes it. */
  lemma ParsedIdIgnoresPage(sha256: string -> HexDigest, url: string,
                            extracted1: map<string, Value>, extracted2: map<string, Value>)
    ensures var id := JobId(sha256, url);
      SchemaEnforced(extracted1, url, id)["job_id"] == SchemaEnforced(extracted2, url, id)["job_id"]
  {
  }
}
