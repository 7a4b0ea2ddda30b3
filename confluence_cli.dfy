/** The helpers of the Confluence client around the renderer and the reducer:
    the CQL wrapper, the space filter, page ids and page URLs, the body
    representation sent on create and update, and the body read back on get. */
module ConfluenceCli {
  import opened Wrappers
  import opened Text
  import opened Json
  import ConfluenceMarkdown
  import ConfluenceReduce

  // ----- wrap_simple_query_to_cql -----

  /** The markers that make `wrap_simple_query_to_cql` take a query for CQL. */
  predicate LooksLikeCql(q: string) {
    Contains(q, "=") || Contains(q, "~") || Contains(q, ">") || Contains(q, "<")
    || Contains(q, " AND ") || Contains(q, " OR ") || Contains(q, "currentUser()")
  }

  /** `s.replace('"', '\\"')`. */
  function QuoteEscaped(s: string): string {
    ReplaceAll(s, "\"", "\\\"")
  }

  /** A CQL query is passed through, anything else becomes a `siteSearch` for
      the text with its quotes escaped; so the result is the query itself
      exactly when the query holds one of the markers. */
  function WrapSimpleQueryToCql(q: string): (r: string)
    ensures r == q <==> LooksLikeCql(q)
  {
    if LooksLikeCql(q) then q
    else
      var r := "siteSearch ~ \"" + QuoteEscaped(q) + "\"";
      assert OccursAt(r, "~", 11);
      r
  }

  /** Reading a term written by `QuoteEscaped` back: `\"` is a quote. */
  function QuoteUnescaped(t: string): string
    decreases |t|
  {
    if |t| >= 2 && t[0] == '\\' && t[1] == '"' then "\"" + QuoteUnescaped(t[2..])
    else if t == [] then []
    else [t[0]] + QuoteUnescaped(t[1..])
  }

  /** `QuoteEscaped` of a nonempty text starts with its first character, or with a backslash. */
  lemma QuoteEscapedCons(c: char, s: string)
    ensures QuoteEscaped([c] + s)
      == (if c == '"' then "\\\"" else [c]) + QuoteEscaped(s)
  {
    assert ([c] + s)[..1] == [c];
    assert ([c] + s)[1..] == s;
  }

  /** The escaped text never starts with a quote. */
  lemma QuoteEscapedHead(s: string)
    ensures QuoteEscaped(s) == [] || QuoteEscaped(s)[0] != '"'
  {
    if s != [] {
      QuoteEscapedCons(s[0], s[1..]);
      assert [s[0]] + s[1..] == s;
    }
  }

  /** The quotes of a wrapped query survive: unescaping the term gives the query back. */
  lemma {:induction false} QuoteRoundTrip(q: string)
    ensures QuoteUnescaped(QuoteEscaped(q)) == q
    decreases |q|
  {
    if q != [] {
      var c, rest := q[0], q[1..];
      assert q == [c] + rest;
      QuoteEscapedCons(c, rest);
      QuoteRoundTrip(rest);
      var t := QuoteEscaped(rest);
      if c == '"' {
        assert ("\\\"" + t)[2..] == t;
      } else {
        QuoteEscapedHead(rest);
        assert ([c] + t)[1..] == t;
      }
    }
  }

  /** Every quote of the term has a backslash before it, so the term cannot end
      the `"…"` literal it is put in. */
  lemma {:induction false} QuotesGuarded(q: string)
    ensures var t := QuoteEscaped(q);
      forall j :: 0 <= j < |t| && t[j] == '"' ==> j > 0 && t[j - 1] == '\\'
    decreases |q|
  {
    if q != [] {
      var c, rest := q[0], q[1..];
      assert q == [c] + rest;
      QuoteEscapedCons(c, rest);
      QuotesGuarded(rest);
      var t := QuoteEscaped(rest);
      var h: string := if c == '"' then "\\\"" else [c];
      var u := h + t;
      forall j | 0 <= j < |u| && u[j] == '"' ensures j > 0 && u[j - 1] == '\\' {
        if j >= |h| {
          assert u[j] == t[j - |h|];
          if j > |h| { assert u[j - 1] == t[j - |h| - 1]; }
          else { QuoteEscapedHead(rest); }
        }
      }
    }
  }

  /** A plain query is wrapped as `siteSearch ~ "…"` around its escaped text. */
  lemma WrappedTerm(q: string)
    requires !LooksLikeCql(q)
    ensures var r := WrapSimpleQueryToCql(q);
      && StartsWith(r, "siteSearch ~ \"") && EndsWith(r, "\"")
      && QuoteUnescaped(r[14..|r| - 1]) == q
  {
    var r := WrapSimpleQueryToCql(q);
    assert r[14..|r| - 1] == QuoteEscaped(q);
    QuoteRoundTrip(q);
  }

  // ----- apply_spaces_filter -----

  /** `[k.strip() for k in pieces if k.strip()]`. */
  function SpaceKeys(pieces: seq<string>): seq<string> {
    if pieces == [] then []
    else (if Strip(pieces[0]) != [] then [Strip(pieces[0])] else []) + SpaceKeys(pieces[1..])
  }

  function SpaceClause(k: string): string {
    "space = \"" + k + "\""
  }

  function SpaceClauses(keys: seq<string>): (r: seq<string>)
    ensures |r| == |keys|
    ensures forall i :: 0 <= i < |keys| ==> r[i] == SpaceClause(keys[i])
  {
    if keys == [] then [] else [SpaceClause(keys[0])] + SpaceClauses(keys[1..])
  }

  /** The query is left alone exactly when the filter names no space; otherwise
      it is `(space = "k1" OR …) AND (cql)`. */
  function ApplySpacesFilter(cql: string, spacesFilter: Option<string>): (r: string)
    ensures r == cql <==> spacesFilter.None? || SpaceKeys(Split(spacesFilter.value, ',')) == []
    ensures r != cql ==> EndsWith(r, ") AND (" + cql + ")")
  {
    if spacesFilter.None? || spacesFilter.value == [] then cql
    else
      var keys := SpaceKeys(Split(spacesFilter.value, ','));
      if keys == [] then cql
      else
        var tail := ") AND (" + cql + ")";
        var r := "(" + Join(SpaceClauses(keys), " OR ") + tail;
        assert r[|r| - |tail|..] == tail;
        r
  }

  /** The keys are the non-blank pieces, stripped, in order: a filter over the pieces. */
  lemma {:induction false} SpaceKeysAppend(a: seq<string>, b: seq<string>)
    ensures SpaceKeys(a + b) == SpaceKeys(a) + SpaceKeys(b)
    decreases |a|
  {
    if a == [] {
      assert a + b == b;
    } else {
      assert (a + b)[0] == a[0];
      assert (a + b)[1..] == a[1..] + b;
      SpaceKeysAppend(a[1..], b);
    }
  }

  lemma SpaceKeysOne(p: string)
    ensures SpaceKeys([p]) == (if Strip(p) != [] then [Strip(p)] else [])
  {
    assert [p][1..] == [];
  }

  /** Each key is non-empty, holds no `,` and has no blank at either end. */
  lemma {:induction false} SpaceKeysClean(pieces: seq<string>)
    requires forall i :: 0 <= i < |pieces| ==> !HasChar(pieces[i], ',')
    ensures forall i :: 0 <= i < |SpaceKeys(pieces)| ==>
      var k := SpaceKeys(pieces)[i];
      k != [] && !HasChar(k, ',') && !IsSpace(k[0]) && !IsSpace(k[|k| - 1])
    decreases |pieces|
  {
    if pieces != [] {
      var p := pieces[0];
      SpaceKeysClean(pieces[1..]);
      StripKeepsOut(p, ',');
      StripEnds(p);
      var h := if Strip(p) != [] then [Strip(p)] else [];
      var ks := SpaceKeys(pieces);
      assert ks == h + SpaceKeys(pieces[1..]);
      forall i | 0 <= i < |ks|
        ensures var k := ks[i]; k != [] && !HasChar(k, ',') && !IsSpace(k[0]) && !IsSpace(k[|k| - 1])
      {
        if i >= |h| { assert ks[i] == SpaceKeys(pieces[1..])[i - |h|]; }
      }
    }
  }

  /** The keys of a filter string. */
  lemma FilterKeysClean(filter: string)
    ensures forall i :: 0 <= i < |SpaceKeys(Split(filter, ','))| ==>
      var k := SpaceKeys(Split(filter, ','))[i];
      k != [] && !HasChar(k, ',') && !IsSpace(k[0]) && !IsSpace(k[|k| - 1])
  {
    SplitNoSep(filter, ',');
    SpaceKeysClean(Split(filter, ','));
  }

  // ----- _resolve_page_id and _build_page_url -----

  /** `/pages/(\d+)` at `j`: the digits after `/pages/` (at least one, as many as there are). */
  function PagesAt(s: string, j: nat): (r: Option<string>)
    ensures r.Some? ==> AllDigits(r.value)
  {
    if OccursAt(s, "/pages/", j) && j + 7 < |s| && IsDigit(s[j + 7]) then
      var t := s[j + 7..];
      Some(t[..LeadDigits(t)])
    else None
  }

  /** `re.search(r"/pages/(\d+)", s)` from position `j` on: the leftmost match. */
  function SearchPages(s: string, j: nat): (r: Option<string>)
    ensures r.Some? ==> AllDigits(r.value)
    decreases |s| - j
  {
    if j >= |s| then None
    else match PagesAt(s, j)
      case Some(d) => Some(d)
      case None => SearchPages(s, j + 1)
  }

  /** An id that is all digits is kept; otherwise the digits of the first
      `/pages/<digits>` in it; otherwise the text unchanged. */
  function ResolvePageId(raw: string): (r: string)
    ensures AllDigits(raw) ==> r == raw
    ensures r == raw || AllDigits(r)
  {
    if AllDigits(raw) then raw
    else match SearchPages(raw, 0)
      case Some(d) => d
      case None => raw
  }

  /** A page URL needs a base URL, a space key and a page id, all non-empty. */
  function BuildPageUrl(base: string, spaceKey: Option<string>, pageId: Option<string>): (r: Option<string>)
    ensures r.Some? <==> base != [] && spaceKey.Some? && spaceKey.value != [] && pageId.Some? && pageId.value != []
  {
    if base == [] || spaceKey.None? || spaceKey.value == [] || pageId.None? || pageId.value == [] then None
    else Some(base + "/spaces/" + spaceKey.value + "/pages/" + pageId.value)
  }

  /** No match from `j` on when the search finds none. */
  lemma {:induction false} SearchPagesNone(s: string, j: nat)
    requires SearchPages(s, j).None?
    ensures forall k :: j <= k < |s| ==> PagesAt(s, k).None?
    decreases |s| - j
  {
    if j < |s| {
      SearchPagesNone(s, j + 1);
    }
  }

  /** The search finds the first match. */
  lemma {:induction false} SearchPagesFirst(s: string, j: nat, m: nat)
    requires j <= m < |s| && PagesAt(s, m).Some?
    requires forall k :: j <= k < m ==> PagesAt(s, k).None?
    ensures SearchPages(s, j) == PagesAt(s, m)
    decreases m - j
  {
    if j < m {
      SearchPagesFirst(s, j + 1, m);
    }
  }

  /** A page URL built from a numeric id resolves back to that id, provided the
      part before `/pages/` holds no `/pages/<digit>` of its own. */
  lemma PageUrlResolves(base: string, spaceKey: string, pageId: string)
    requires base != [] && spaceKey != [] && AllDigits(pageId)
    requires SearchPages(base + "/spaces/" + spaceKey, 0).None?
    ensures BuildPageUrl(base, Some(spaceKey), Some(pageId)).Some?
    ensures ResolvePageId(BuildPageUrl(base, Some(spaceKey), Some(pageId)).value) == pageId
  {
    var pre := base + "/spaces/" + spaceKey;
    var url := pre + ("/pages/" + pageId);
    assert BuildPageUrl(base, Some(spaceKey), Some(pageId)).value == url;
    SearchPagesNone(pre, 0);
    forall k | 0 <= k < |pre| ensures PagesAt(url, k).None? {
      PrefixNoMatch(pre, pageId, k);
    }
    UrlTail(pre, pageId);
    SearchPagesFirst(url, 0, |pre|);
    assert !AllDigits(url) by { assert url[|pre|] == '/'; }
  }

  /** The id right after `/pages/` is matched whole. */
  lemma UrlTail(pre: string, pageId: string)
    requires AllDigits(pageId)
    ensures PagesAt(pre + ("/pages/" + pageId), |pre|) == Some(pageId)
  {
    var url := pre + ("/pages/" + pageId);
    var m := |pre|;
    assert url[m..m + 7] == "/pages/";
    assert url[m + 7..] == pageId;
    assert LeadDigits(pageId) == |pageId|;
    assert pageId[..|pageId|] == pageId;
  }

  /** No match of `/pages/<digit>` starts inside a prefix that has none of its own. */
  lemma PrefixNoMatch(pre: string, pageId: string, k: nat)
    requires forall j :: 0 <= j < |pre| ==> PagesAt(pre, j).None?
    requires k < |pre|
    ensures PagesAt(pre + ("/pages/" + pageId), k).None?
  {
    var url := pre + ("/pages/" + pageId);
    var m := |pre|;
    assert PagesAt(pre, k).None?;
    if k + 7 < m {
      assert url[k..k + 7] == pre[k..k + 7];
      assert url[k + 7] == pre[k + 7];
    } else {
      var d := m - k;
      assert url[m] == '/';
      if d == 7 {
        assert !IsDigit(url[k + 7]);
      } else if d == 6 {
        assert url[k + 7] == 'p';
      } else {
        assert url[k..k + 7][d] == '/';
        assert "/pages/"[d] != '/';
      }
    }
  }

  // ----- _normalize_body -----

  /** The body representation sent on create and update: `storage` and `wiki`
      (any letter case) send the content as it is, anything else (and a
      missing format, read as `markdown`) sends the content rendered to storage. */
  function NormalizeBody(content: string, format: Option<string>): (r: (string, string))
    ensures r.1 == "storage" || r.1 == "wiki"
    ensures r.0 == content || r.0 == ConfluenceMarkdown.Storage(content)
    ensures r.1 == "wiki" ==> r.0 == content
  {
    var f := Lower(if format.None? || format.value == [] then "markdown" else format.value);
    if f == "storage" then (content, "storage")
    else if f == "wiki" then (content, "wiki")
    else (ConfluenceMarkdown.Storage(content), "storage")
  }

  /** Without a format, the content is rendered. */
  lemma NormalizeBodyDefault(content: string)
    ensures NormalizeBody(content, None) == (ConfluenceMarkdown.Storage(content), "storage")
  {
    assert |Lower("markdown")| == 8;
  }

  // ----- _extract_body -----

  /** `(x or {}).get(k)`: a falsy `x` reads as an empty dict; an `x` that is
      truthy but not a dict has no `get`. */
  function OrEmptyGet(x: Json, k: string): Result<Json> {
    var d := Or(x, JObj([]));
    if d.JObj? then Ok(GetOrNull(d, k)) else Err("AttributeError: object has no attribute 'get'")
  }

  /** The `value` under `body[key]`, when `body` is a dict. */
  function BodyValue(body: Json, key: string): Result<Json> {
    if body.JObj? then OrEmptyGet(GetOrNull(body, key), "value") else Ok(JNull)
  }

  /** `_extract_body`: the format name and the body. `storage` gives the stored
      body; `markdown` gives the export view (or else the stored body) reduced
      to Markdown; anything else gives `html` with the export view (or else the
      stored body). A missing body reads as empty text. */
  function ExtractBody(page: Json, outputFormat: string): (r: Result<(string, Json)>)
    ensures r.Ok? && outputFormat == "storage" ==> r.value.0 == "storage"
    ensures r.Ok? && outputFormat == "markdown" ==>
      r.value.0 == "markdown" && r.value.1.JStr? && ConfluenceReduce.NoTag(r.value.1.s)
    ensures r.Ok? && outputFormat != "storage" && outputFormat != "markdown" ==> r.value.0 == "html"
  {
    if !page.JObj? then Err("AttributeError: object has no attribute 'get'")
    else
      var body := Or(GetOrNull(page, "body"), JObj([]));
      match BodyValue(body, "export_view")
      case Err(e) => Err(e)
      case Ok(exportView) =>
        match BodyValue(body, "storage")
        case Err(e) => Err(e)
        case Ok(storage) =>
          if outputFormat == "storage" then Ok(("storage", Or(storage, JStr(""))))
          else if outputFormat == "markdown" then
            var html := Or(Or(exportView, storage), JStr(""));
            if html.JStr? then
              ConfluenceReduce.ReducedHasNoTag(html.s);
              Ok(("markdown", JStr(ConfluenceReduce.HtmlToMarkdownLight(html.s))))
            else Err("TypeError: expected string")
          else Ok(("html", Or(Or(exportView, storage), JStr(""))))
  }

  /** A page without a body reads as empty text in every format. */
  lemma ExtractBodyEmpty(page: Json, outputFormat: string)
    requires page.JObj? && !Truthy(GetOrNull(page, "body"))
    ensures ExtractBody(page, outputFormat) == Ok((
      if outputFormat == "storage" then "storage" else if outputFormat == "markdown" then "markdown" else "html",
      JStr("")))
  {
    NoBodyValues(page);
    if outputFormat == "markdown" {
      ConfluenceReduce.PlainTextReduced("");
    }
  }

  lemma NoBodyValues(page: Json)
    requires page.JObj? && !Truthy(GetOrNull(page, "body"))
    ensures var body := Or(GetOrNull(page, "body"), JObj([]));
      BodyValue(body, "export_view") == Ok(JNull) && BodyValue(body, "storage") == Ok(JNull)
  {
  }

  /** The export view wins over the stored body when it is there. */
  lemma ExportViewFirst(page: Json, view: string, outputFormat: string)
    requires page.JObj? && outputFormat != "storage" && outputFormat != "markdown"
    requires var body := GetOrNull(page, "body");
      body.JObj? && Truthy(body) && GetOrNull(body, "export_view").JObj?
      && GetOrNull(GetOrNull(body, "export_view"), "value") == JStr(view) && view != []
    requires var body := GetOrNull(page, "body");
      var st := GetOrNull(body, "storage"); !Truthy(st) || st.JObj?
    ensures ExtractBody(page, outputFormat) == Ok(("html", JStr(view)))
  {
  }
}
