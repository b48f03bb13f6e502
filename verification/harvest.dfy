/** The pipeline `linkedin_keyword_harvest` (scraper.py:136-167): optional
    cookie set-up, then for each keyword the discovered links, each turned
    into a metadata row tagged with its keyword. */
module Harvest {
  import opened Wrappers
  import opened Json
  import opened Cookies
  import opened Sessions
  import opened Search
  import opened Metadata

  /** One output row. The cookie-failure row has no `keyword` entry. */
  datatype Row = Row(url: string, title: string, description: string, error: string, keyword: Option<string>)

  /** The outcome of opening and parsing the cookie file. */
  datatype CookieFile = Parsed(data: Value) | Unreadable(reason: string)

  /** The pages the harvest fetches, as seen through the session it uses. */
  type PageSource = (Session, string) -> Fetch

  const CookieFailurePrefix := "Failed to load cookies: "

  /** The session every page is fetched with, and the rows the cookie stage
      puts before all others. */
  datatype Setup = Setup(session: Session, prelude: seq<Row>)

  /** `if cookies_path:` — a missing or empty path means no cookies. */
  predicate PathGiven(path: Option<string>)
  {
    path.Some? && path.value != ""
  }

  /** The row recording why the cookies could not be used. */
  function CookieFailureRow(message: string): Row
  {
    Row("", "", "", CookieFailurePrefix + message, None)
  }

  /** The cookie stage at scraper.py:148-157: load the cookies and build an
      authenticated session, or, if either step raises, fall back to a plain
      session and record the error as one leading row. */
  function CookieSetup(path: Option<string>, file: CookieFile): (s: Setup)
    ensures |s.prelude| <= 1
    ensures !PathGiven(path) ==> s == Setup(PlainSession, [])
    ensures s.prelude != [] ==> (
      && PathGiven(path)
      && s.session == PlainSession
      && s.prelude[0].keyword.None?
      && s.prelude[0].url == "" && s.prelude[0].title == "" && s.prelude[0].description == ""
      && CookieFailurePrefix <= s.prelude[0].error)
    ensures PathGiven(path) && file.Unreadable? ==> s.prelude == [CookieFailureRow(file.reason)]
    ensures PathGiven(path) && file.Parsed? && LoadCookies(file.data).Failure? ==>
      s.prelude == [CookieFailureRow(LoadErrorText(LoadCookies(file.data).error))]
    ensures (PathGiven(path) && file.Parsed? && LoadCookies(file.data).Success?
      && MakeSession(Some(LoadCookies(file.data).value), None).Failure?) ==>
      s.prelude == [CookieFailureRow(SessionErrorText(MakeSession(Some(LoadCookies(file.data).value), None).error))]
    ensures PathGiven(path) ==> (
      s.prelude == [] <==>
        && file.Parsed?
        && LoadCookies(file.data).Success?
        && MakeSession(Some(LoadCookies(file.data).value), None).Success?)
    ensures PathGiven(path) && s.prelude == [] ==>
      s.session == MakeSession(Some(LoadCookies(file.data).value), None).value
  {
    if !PathGiven(path) then Setup(PlainSession, [])
    else match file
      case Unreadable(reason) => Setup(PlainSession, [CookieFailureRow(reason)])
      case Parsed(data) =>
        match LoadCookies(data)
        case Failure(e) => Setup(PlainSession, [CookieFailureRow(LoadErrorText(e))])
        case Success(jar) =>
          match MakeSession(Some(jar), None)
          case Failure(e) => Setup(PlainSession, [CookieFailureRow(SessionErrorText(e))])
          case Success(session) => Setup(session, [])
  }

  /** `meta["keyword"] = kw` on a fetched record. */
  function Tag(m: Meta, keyword: string): Row
  {
    Row(m.url, m.title, m.description, m.error, Some(keyword))
  }

  /** The rows of one keyword: one per discovered url, in order. */
  function RowsFor(keyword: string, urls: seq<string>, pages: PageSource, session: Session): (rows: seq<Row>)
    ensures |rows| == |urls|
    ensures forall i :: 0 <= i < |urls| ==> rows[i] == Tag(FetchUrlMetadata(urls[i], pages(session, urls[i])), keyword)
  {
    seq(|urls|, i requires 0 <= i < |urls| => Tag(FetchUrlMetadata(urls[i], pages(session, urls[i])), keyword))
  }

  /** The keyword loop at scraper.py:159-165. A failed search is not caught
      there, so it ends the whole harvest. */
  function KeywordRows(keywords: seq<string>, perKeyword: int, engine: Engine, pages: PageSource, session: Session): Result<seq<Row>, string>
    decreases |keywords|
  {
    if keywords == [] then Success([])
    else
      match BingSiteSearch(engine, keywords[0], perKeyword)
      case Failure(e) => Failure(e)
      case Success(urls) =>
        match KeywordRows(keywords[1..], perKeyword, engine, pages, session)
        case Failure(e) => Failure(e)
        case Success(rest) => Success(RowsFor(keywords[0], urls, pages, session) + rest)
  }

  /** The rows of the cookie stage followed by those of the keyword loop. */
  function Assemble(setup: Setup, keywords: seq<string>, perKeyword: int, engine: Engine, pages: PageSource): Result<seq<Row>, string>
  {
    match KeywordRows(keywords, perKeyword, engine, pages, setup.session)
    case Failure(e) => Failure(e)
    case Success(rows) => Success(setup.prelude + rows)
  }

  /** `linkedin_keyword_harvest(keywords, per_keyword, cookies_path)`. */
  function KeywordHarvest(keywords: seq<string>, perKeyword: int, path: Option<string>, file: CookieFile,
                          engine: Engine, pages: PageSource): Result<seq<Row>, string>
  {
    Assemble(CookieSetup(path, file), keywords, perKeyword, engine, pages)
  }

  /** The (keyword, url) pairs the searches discover, keyword by keyword:
      the harvest without any page fetching. */
  function Discovered(keywords: seq<string>, perKeyword: int, engine: Engine): Result<seq<(string, string)>, string>
    decreases |keywords|
  {
    if keywords == [] then Success([])
    else
      match BingSiteSearch(engine, keywords[0], perKeyword)
      case Failure(e) => Failure(e)
      case Success(urls) =>
        match Discovered(keywords[1..], perKeyword, engine)
        case Failure(e) => Failure(e)
        case Success(rest) => Success(seq(|urls|, i requires 0 <= i < |urls| => (keywords[0], urls[i])) + rest)
  }

  /** The keyword loop produces exactly one row per discovered pair, in the
      same order, carrying the pair's keyword and the metadata of its url;
      it fails exactly when discovery fails, with the same error. */
  lemma {:induction false} KeywordRowsMatchDiscovered(keywords: seq<string>, perKeyword: int, engine: Engine, pages: PageSource, session: Session)
    ensures KeywordRows(keywords, perKeyword, engine, pages, session).Success?
      <==> Discovered(keywords, perKeyword, engine).Success?
    ensures KeywordRows(keywords, perKeyword, engine, pages, session).Failure? ==>
      KeywordRows(keywords, perKeyword, engine, pages, session).error == Discovered(keywords, perKeyword, engine).error
    ensures KeywordRows(keywords, perKeyword, engine, pages, session).Success? ==>
      var rows := KeywordRows(keywords, perKeyword, engine, pages, session).value;
      var pairs := Discovered(keywords, perKeyword, engine).value;
      && |rows| == |pairs|
      && forall i :: 0 <= i < |pairs| ==> rows[i] == Tag(FetchUrlMetadata(pairs[i].1, pages(session, pairs[i].1)), pairs[i].0)
    decreases |keywords|
  {
    if keywords != [] {
      KeywordRowsMatchDiscovered(keywords[1..], perKeyword, engine, pages, session);
    }
  }

  /** Assembling puts the cookie-stage rows first, then one row per
      discovered pair, and fails exactly when discovery fails. */
  lemma AssembleShape(setup: Setup, keywords: seq<string>, perKeyword: int, engine: Engine, pages: PageSource)
    ensures Assemble(setup, keywords, perKeyword, engine, pages).Success?
      <==> Discovered(keywords, perKeyword, engine).Success?
    ensures Assemble(setup, keywords, perKeyword, engine, pages).Success? ==>
      var rows := Assemble(setup, keywords, perKeyword, engine, pages).value;
      var pairs := Discovered(keywords, perKeyword, engine).value;
      var n := |setup.prelude|;
      && rows[..n] == setup.prelude
      && |rows| == n + |pairs|
      && forall i :: 0 <= i < |pairs| ==>
           rows[n + i] == Tag(FetchUrlMetadata(pairs[i].1, pages(setup.session, pairs[i].1)), pairs[i].0)
  {
    KeywordRowsMatchDiscovered(keywords, perKeyword, engine, pages, setup.session);
    var r := KeywordRows(keywords, perKeyword, engine, pages, setup.session);
    if r.Success? {
      var rows := setup.prelude + r.value;
      assert rows[..|setup.prelude|] == setup.prelude;
      forall i | 0 <= i < |r.value| ensures rows[|setup.prelude| + i] == r.value[i] { }
    }
  }

  /** The harvest's shape: at most one cookie-failure row first, then one row
      per discovered (keyword, url) pair, in discovery order, each tagged with
      the keyword that found it and holding the metadata of its url. The
      harvest fails exactly when a search fails. */
  lemma HarvestShape(keywords: seq<string>, perKeyword: int, path: Option<string>, file: CookieFile,
                     engine: Engine, pages: PageSource)
    ensures KeywordHarvest(keywords, perKeyword, path, file, engine, pages).Success?
      <==> Discovered(keywords, perKeyword, engine).Success?
    ensures KeywordHarvest(keywords, perKeyword, path, file, engine, pages).Success? ==>
      var setup := CookieSetup(path, file);
      var rows := KeywordHarvest(keywords, perKeyword, path, file, engine, pages).value;
      var pairs := Discovered(keywords, perKeyword, engine).value;
      var n := |setup.prelude|;
      && n <= 1
      && rows[..n] == setup.prelude
      && |rows| == n + |pairs|
      && forall i :: 0 <= i < |pairs| ==>
           && rows[n + i].keyword == Some(pairs[i].0)
           && rows[n + i].url == pairs[i].1
           && rows[n + i] == Tag(FetchUrlMetadata(pairs[i].1, pages(setup.session, pairs[i].1)), pairs[i].0)
  {
    AssembleShape(CookieSetup(path, file), keywords, perKeyword, engine, pages);
  }

  /** Discovery walks the keywords in order: the pairs of `a + b` are the
      pairs of `a` followed by the pairs of `b`, and each keyword's pairs are
      its search results, tagged with it. */
  lemma {:induction false} DiscoveredAppend(a: seq<string>, b: seq<string>, perKeyword: int, engine: Engine)
    requires Discovered(a + b, perKeyword, engine).Success?
    ensures Discovered(a, perKeyword, engine).Success? && Discovered(b, perKeyword, engine).Success?
    ensures Discovered(a + b, perKeyword, engine).value
      == Discovered(a, perKeyword, engine).value + Discovered(b, perKeyword, engine).value
    decreases |a|
  {
    if a == [] {
      assert a + b == b;
    } else {
      assert (a + b)[1..] == a[1..] + b;
      assert (a + b)[0] == a[0];
      DiscoveredAppend(a[1..], b, perKeyword, engine);
    }
  }

  /** A single keyword discovers its search results, in order, each paired
      with that keyword. */
  lemma DiscoveredSingle(keyword: string, perKeyword: int, engine: Engine)
    ensures Discovered([keyword], perKeyword, engine).Success?
      <==> BingSiteSearch(engine, keyword, perKeyword).Success?
    ensures Discovered([keyword], perKeyword, engine).Success? ==>
      var urls := BingSiteSearch(engine, keyword, perKeyword).value;
      var pairs := Discovered([keyword], perKeyword, engine).value;
      && |pairs| == |urls|
      && forall i :: 0 <= i < |urls| ==> pairs[i] == (keyword, urls[i])
  {
    assert [keyword][1..] == [];
  }

  /** After the cookie-stage rows, every assembled row carries a keyword. */
  lemma AssembleKeywords(setup: Setup, keywords: seq<string>, perKeyword: int, engine: Engine, pages: PageSource)
    requires Assemble(setup, keywords, perKeyword, engine, pages).Success?
    ensures var rows := Assemble(setup, keywords, perKeyword, engine, pages).value;
      && rows[..|setup.prelude|] == setup.prelude
      && forall i :: |setup.prelude| <= i < |rows| ==> rows[i].keyword.Some?
  {
    AssembleShape(setup, keywords, perKeyword, engine, pages);
    var rows := Assemble(setup, keywords, perKeyword, engine, pages).value;
    var pairs := Discovered(keywords, perKeyword, engine).value;
    var n := |setup.prelude|;
    forall i | n <= i < |rows| ensures rows[i].keyword.Some? {
      var k := i - n;
      assert rows[n + k] == Tag(FetchUrlMetadata(pairs[k].1, pages(setup.session, pairs[k].1)), pairs[k].0);
    }
  }

  /** Without a cookie path, or with cookies that load and authenticate, the
      harvest has no leading row; otherwise exactly one, without a keyword,
      whose error starts with the cookie-failure prefix. Every other row
      carries a keyword. */
  lemma HarvestPrelude(keywords: seq<string>, perKeyword: int, path: Option<string>, file: CookieFile,
                       engine: Engine, pages: PageSource)
    requires KeywordHarvest(keywords, perKeyword, path, file, engine, pages).Success?
    ensures var rows := KeywordHarvest(keywords, perKeyword, path, file, engine, pages).value;
      var failed := PathGiven(path) && !(file.Parsed? && LoadCookies(file.data).Success?
                                          && MakeSession(Some(LoadCookies(file.data).value), None).Success?);
      && (failed ==> rows != [] && rows[0].keyword.None? && CookieFailurePrefix <= rows[0].error)
      && (forall i :: (if failed then 1 else 0) <= i < |rows| ==> rows[i].keyword.Some?)
  {
    var setup := CookieSetup(path, file);
    AssembleKeywords(setup, keywords, perKeyword, engine, pages);
    var rows := Assemble(setup, keywords, perKeyword, engine, pages).value;
    if setup.prelude != [] {
      assert rows[0] == rows[..1][0] == setup.prelude[0];
    }
  }
}
