/** `job_link_search` of ingest_jobs.py: ask the web search for job pages
    and keep the links that are strings starting with "http". The search
    itself is foreign: it is the parameter `search`. */
module LinkSearch {
  import opened Py

  /** What `google_search(query=q, n_results=n)` does: it raises, or it
      returns a dictionary whose `"search_results"` entry (absent: `None`
      here) is the list of hits. */
  datatype SearchReply =
    | SearchRaised(message: string)
    | SearchOutput(searchResults: Option<seq<Value>>)

  /** The dictionary the tool returns: without an `"error"` entry on success,
      with one (and no links) when anything inside the `try` raised. */
  datatype LinkSearchResult =
    | Links(query: string, count: int, urls: seq<string>)
    | LinkSearchError(query: string, count: int, urls: seq<string>, error: string)

  /** The link a hit contributes, if any: a string `item.get("link")` that starts with "http". */
  function HttpLink(item: map<string, Value>): Option<string>
  {
    var link := DictGet(item, "link");
    if link.Str? && StartsWith(link.s, "http") then Some(link.s) else None
  }

  /** The links kept from `hits`, in order, or the AttributeError raised by
      `item.get` on the first hit that is not a dictionary. Defined from the
      last hit backwards, as the loop builds it. */
  function HttpLinks(hits: seq<Value>): (r: Result<seq<string>>)
    ensures r.Ok? <==> forall i :: 0 <= i < |hits| ==> hits[i].Dict?
    ensures r.Ok? ==> |r.value| <= |hits|
  {
    if hits == [] then Ok([])
    else
      var last := hits[|hits| - 1];
      var init := hits[..|hits| - 1];
      match HttpLinks(init)
      case Raise(e) => Raise(e)
      case Ok(urls) =>
        if !last.Dict? then Raise(NoGetMessage(last))
        else
          match HttpLink(last.entries)
          case Some(u) => Ok(urls + [u])
          case None => Ok(urls)
  }

  /** `job_link_search(tool_context, query, n_results)`. */
  method JobLinkSearch(query: string, nResults: int, search: (string, int) -> SearchReply)
    returns (r: LinkSearchResult)
    ensures r.query == query
    ensures r.count == |r.urls|
    ensures search(query, nResults).SearchRaised? ==>
      r == LinkSearchError(query, 0, [], search(query, nResults).message)
    ensures search(query, nResults).SearchOutput? ==>
      var hits := match search(query, nResults).searchResults case Some(h) => h case None => [];
      match HttpLinks(hits)
      case Ok(urls) => r == Links(query, |urls|, urls)
      case Raise(e) => r == LinkSearchError(query, 0, [], e)
  {
    var output := search(query, nResults);
    if output.SearchRaised? {
      return LinkSearchError(query, 0, [], output.message);
    }
    var raw := match output.searchResults case Some(h) => h case None => [];
    var urls: seq<string> := [];
    var i := 0;
    while i < |raw|
      invariant 0 <= i <= |raw|
      invariant HttpLinks(raw[..i]) == Ok(urls)
    {
      assert raw[..i + 1][..i] == raw[..i];
      var item := raw[i];
      if !item.Dict? {
        PrefixRaises(raw, i, |raw|);
        assert raw[..|raw|] == raw;
        return LinkSearchError(query, 0, [], NoGetMessage(item));
      }
      var link := DictGet(item.entries, "link");
      if link.Str? && StartsWith(link.s, "http") {
        urls := urls + [link.s];
      }
      i := i + 1;
    }
    assert raw[..|raw|] == raw;
    return Links(query, |urls|, urls);
  }

  /** The kept links are exactly the "http" links of the hits: a string is
      kept iff some hit's `link` is that string and passes the prefix test. */
  lemma {:induction false} HttpLinksMembers(hits: seq<Value>, u: string)
    requires HttpLinks(hits).Ok?
    ensures u in HttpLinks(hits).value <==>
      exists i :: 0 <= i < |hits| && HttpLink(hits[i].entries) == Some(u)
  {
    if hits != [] {
      var n := |hits| - 1;
      HttpLinksMembers(hits[..n], u);
      if exists i :: 0 <= i < |hits| && HttpLink(hits[i].entries) == Some(u) {
        var i :| 0 <= i < |hits| && HttpLink(hits[i].entries) == Some(u);
        if i < n {
          assert hits[..n][i] == hits[i];
        }
      }
    }
  }

  /** The values of the `Some` entries of `xs`, in order. */
  function Somes(xs: seq<Option<string>>): seq<string>
  {
    if xs == [] then []
    else (if xs[0].Some? then [xs[0].value] else []) + Somes(xs[1..])
  }

  lemma {:induction false} SomesAppend(xs: seq<Option<string>>, x: Option<string>)
    ensures Somes(xs + [x]) == Somes(xs) + Somes([x])
  {
    if xs != [] {
      assert (xs + [x])[1..] == xs[1..] + [x];
      SomesAppend(xs[1..], x);
    }
  }

  /** The link each hit offers, hit by hit. */
  function LinkOptions(hits: seq<Value>): (opts: seq<Option<string>>)
    ensures |opts| == |hits|
  {
    seq(|hits|, i requires 0 <= i < |hits| => if hits[i].Dict? then HttpLink(hits[i].entries) else None)
  }

  /** The kept links are the hits' "http" links in the hits' order, one per
      hit that offers one, duplicates included. */
  lemma {:induction false} HttpLinksInOrder(hits: seq<Value>)
    requires HttpLinks(hits).Ok?
    ensures HttpLinks(hits).value == Somes(LinkOptions(hits))
  {
    if hits != [] {
      var n := |hits| - 1;
      HttpLinksInOrder(hits[..n]);
      assert LinkOptions(hits) == LinkOptions(hits[..n]) + [LinkOptions(hits)[n]];
      SomesAppend(LinkOptions(hits[..n]), LinkOptions(hits)[n]);
    }
  }

  /** Once a hit that is not a dictionary is reached, every longer prefix raises its error. */
  lemma {:induction false} PrefixRaises(hits: seq<Value>, i: nat, j: nat)
    requires i < j <= |hits| && !hits[i].Dict?
    requires HttpLinks(hits[..i]).Ok?
    ensures HttpLinks(hits[..j]) == Raise(NoGetMessage(hits[i]))
  {
    assert hits[..j][..j - 1] == hits[..j - 1];
    if j > i + 1 {
      PrefixRaises(hits, i, j - 1);
    }
  }
}
