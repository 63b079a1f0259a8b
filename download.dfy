/**
 * The link loop of download.py. The listing page, the per-link HTTP responses and the files
 * already on disk are inputs: a page is the sequence of its `<a href>` links, a fetch is a
 * lookup in a map from URL to response (a missing URL is a request that raised), and the
 * disk is the set of paths that exist before the run.
 */
module Download {

  import opened Wrappers
  import opened Text

  newtype byte = x: int | 0 <= x < 256

  /** One `<a href=...>` of the page: its `href` and its `get_text(strip=True)`. */
  datatype Link = Link(href: string, text: string)

  /** A successful response: `headers.get('content-type', '')` and the body. */
  datatype Response = Response(contentType: string, content: seq<byte>)

  /**
   * Where the run happens: the page URL, the output directory, the disk and the network.
   * `unwritable` holds the paths whose `open(file_path, 'wb')` or `write` raises.
   */
  datatype Env = Env(url: string, outputDir: string, existing: set<string>, responses: map<string, Response>,
                     unwritable: set<string>)

  const BASE_URL: string := "https://www.treasurer.ca.gov"

  /** The first four bytes of a zip archive, which an .xlsx file is: `b'PK\x03\x04'`. */
  const ZIP_SIGNATURE: seq<byte> := [0x50, 0x4B, 0x03, 0x04]

  // ------------------------------------------------------------------------------------
  // Classifying a link

  /** `s.endswith(('.xlsx', '.xls'))`. */
  predicate EndsWithExcel(s: string)
  {
    EndsWith(s, ".xlsx") || EndsWith(s, ".xls")
  }

  /** The five-way test on a link, with `linkText` already lower-cased. */
  predicate IsExcelLink(href: string, linkText: string)
  {
    || EndsWithExcel(href)
    || Contains(Lower(href), ".xlsx")
    || Contains(Lower(href), ".xls")
    || Contains(linkText, "excel")
    || Contains(linkText, "download")
  }

  /**
   * The test reduces to three: the `endswith` test and the ".xlsx" test both imply the
   * ".xls" one on the lower-cased href.
   */
  lemma IsExcelLinkSimplified(href: string, linkText: string)
    ensures IsExcelLink(href, linkText) <==>
              Contains(Lower(href), ".xls") || Contains(linkText, "excel") || Contains(linkText, "download")
  {
    if EndsWith(href, ".xlsx") {
      EndsWithContains(href, ".xlsx");
      LowerPreservesContains(href, ".xlsx");
    }
    if EndsWith(href, ".xls") {
      EndsWithContains(href, ".xls");
      LowerPreservesContains(href, ".xls");
    }
    if Contains(Lower(href), ".xlsx") {
      assert ".xlsx" == ".xls" + "x";
      ContainsPrefixOf(Lower(href), ".xls", "x");
    }
  }

  // ------------------------------------------------------------------------------------
  // Resolving the URL and deriving the file name

  /** The file URL: absolute paths go to the site origin, "http..." is kept, anything else is page-relative. */
  function ResolveUrl(url: string, href: string): (r: string)
    ensures EndsWith(r, href)
    ensures StartsWith(href, "/") ==> r == BASE_URL + href
    ensures !StartsWith(href, "/") && StartsWith(href, "http") ==> r == href
    ensures !StartsWith(href, "/") && !StartsWith(href, "http") ==> r == BeforeLast(url, '/') + "/" + href
  {
    var r := if StartsWith(href, "/") then BASE_URL + href
             else if StartsWith(href, "http") then href
             else BeforeLast(url, '/') + "/" + href;
    assert r[|r| - |href|..] == href;
    r
  }

  /** A page-relative href replaces everything after the page URL's last '/'. */
  lemma ResolveRelativeUrl(url: string, href: string)
    requires !StartsWith(href, "/") && !StartsWith(href, "http")
    requires '/' in url
    ensures StartsWith(ResolveUrl(url, href), url[..|BeforeLast(url, '/')| + 1])
  {
    var prefix := BeforeLast(url, '/');
    var r := ResolveUrl(url, href);
    assert r == prefix + "/" + href;
    assert url[..|prefix| + 1] == prefix + "/";
    assert r[..|prefix| + 1] == prefix + "/";
  }

  /**
   * The file name: the base name of the href without its query string; if that has no
   * spreadsheet suffix and the href has a '/', the href's last segment without its query
   * string; ".xlsx" is appended when that still has no spreadsheet suffix.
   */
  function Filename(href: string): (r: string)
  {
    var first := AfterLast(BeforeFirst(href, '?'), '/');
    if EndsWithExcel(first) then first
    else
      var second := if '/' in href then BeforeFirst(AfterLast(href, '/'), '?') else first;
      if EndsWithExcel(second) then second else second + ".xlsx"
  }

  /** The base name of the href without its query string holds neither '/' nor '?'. */
  lemma BaseNameIsPlain(href: string)
    ensures var first := AfterLast(BeforeFirst(href, '?'), '/');
            '/' !in first && '?' !in first
  {
    var q := BeforeFirst(href, '?');
    var first := AfterLast(q, '/');
    assert first == q[|q| - |first|..];
    assert forall k :: 0 <= k < |first| ==> first[k] == q[|q| - |first| + k];
  }

  /** The href's last segment without its query string holds neither '/' nor '?'. */
  lemma LastSegmentIsPlain(href: string)
    ensures var second := BeforeFirst(AfterLast(href, '/'), '?');
            '/' !in second && '?' !in second
  {
    var a := AfterLast(href, '/');
    var second := BeforeFirst(a, '?');
    assert second == a[..|second|];
    assert forall k :: 0 <= k < |second| ==> second[k] == a[k];
  }

  /** Appending ".xlsx" to a plain name gives a plain name with a spreadsheet suffix. */
  lemma AppendXlsx(name: string)
    requires '/' !in name && '?' !in name
    ensures EndsWithExcel(name + ".xlsx")
    ensures '/' !in name + ".xlsx" && '?' !in name + ".xlsx"
  {
    var r := name + ".xlsx";
    assert r[|r| - 5..] == ".xlsx";
  }

  /** A derived name ends in ".xlsx" or ".xls" and holds neither a '/' nor a '?'. */
  lemma FilenameShape(href: string)
    ensures EndsWithExcel(Filename(href))
    ensures '/' !in Filename(href) && '?' !in Filename(href)
  {
    BaseNameIsPlain(href);
    LastSegmentIsPlain(href);
    var first := AfterLast(BeforeFirst(href, '?'), '/');
    var second := if '/' in href then BeforeFirst(AfterLast(href, '/'), '?') else first;
    if EndsWithExcel(first) {
      assert Filename(href) == first;
    } else if EndsWithExcel(second) {
      assert Filename(href) == second;
    } else {
      AppendXlsx(second);
      assert Filename(href) == second + ".xlsx";
    }
  }

  /** A name without '/' or '?' is its own `split('?')[0]` and its own base name. */
  lemma PlainNameUnchanged(name: string)
    requires '/' !in name && '?' !in name
    ensures BeforeFirst(name, '?') == name && AfterLast(name, '/') == name
  {
    var q := BeforeFirst(name, '?');
    assert |q| == |name|;
    assert q == name[..|name|];
    var b := AfterLast(name, '/');
    assert |b| == |name|;
    assert b == name[0..];
  }

  /** Deriving the name of a derived name changes nothing. */
  lemma FilenameIdempotent(href: string)
    ensures Filename(Filename(href)) == Filename(href)
  {
    var r := Filename(href);
    FilenameShape(href);
    PlainNameUnchanged(r);
  }

  /** `os.path.join(directory, name)` for one name. */
  function Join(directory: string, name: string): (r: string)
  {
    if StartsWith(name, "/") then name
    else if directory == [] || EndsWith(directory, "/") then directory + name
    else directory + "/" + name
  }

  /** What `os.path.join` puts before a relative name. */
  function DirPrefix(directory: string): string
  {
    if directory == [] || EndsWith(directory, "/") then directory else directory + "/"
  }

  /** A name without '/' is joined after the directory prefix, so it can be read back. */
  lemma JoinPlainName(directory: string, name: string)
    requires '/' !in name
    ensures Join(directory, name) == DirPrefix(directory) + name
    ensures Join(directory, name)[|DirPrefix(directory)|..] == name
  {
    assert |name| == 0 || name[0] != '/';
    assert !StartsWith(name, "/");
  }

  /** A joined path ends with the name, so it keeps the name's suffix. */
  lemma JoinKeepsExcelSuffix(directory: string, name: string)
    requires '/' !in name && EndsWithExcel(name)
    ensures EndsWithExcel(Join(directory, name))
  {
    JoinPlainName(directory, name);
    var p := DirPrefix(directory) + name;
    assert p[|p| - |name|..] == name;
    if EndsWith(name, ".xlsx") {
      assert p[|p| - 5..] == name[|name| - 5..];
    } else {
      assert p[|p| - 4..] == name[|name| - 4..];
    }
  }

  // ------------------------------------------------------------------------------------
  // Accepting a response

  /** The body is kept if the content type names a spreadsheet or the body starts like a zip archive. */
  predicate Accepts(response: Response)
  {
    var contentType := Lower(response.contentType);
    Contains(contentType, "excel") || Contains(contentType, "spreadsheet")
    || (|response.content| >= 4 && response.content[..4] == ZIP_SIGNATURE)
  }

  /** A body that starts with the zip signature is kept whatever the content type. */
  lemma AcceptsZipBody(contentType: string, rest: seq<byte>)
    ensures Accepts(Response(contentType, ZIP_SIGNATURE + rest))
  {
    assert (ZIP_SIGNATURE + rest)[..4] == ZIP_SIGNATURE;
  }

  /** A body shorter than four bytes is kept only on its content type. */
  lemma ShortBodyNeedsContentType(response: Response)
    requires |response.content| < 4
    ensures Accepts(response) <==>
              Contains(Lower(response.contentType), "excel") || Contains(Lower(response.contentType), "spreadsheet")
  {
  }

  // ------------------------------------------------------------------------------------
  // The link loop

  /**
   * What the loop has built so far: `excel_files`, `seen_files`, the file URLs it has
   * requested, and the files it has written (path to the response whose body was written).
   */
  datatype Progress = Progress(files: seq<string>, seen: set<string>, requested: seq<string>,
                               saved: map<string, Response>)

  const START: Progress := Progress([], {}, [], map[])

  /** `if limit and len(excel_files) >= limit`: None and 0 mean no cap. */
  predicate Capped(limit: Option<int>, count: nat)
  {
    limit.Some? && limit.value != 0 && count >= limit.value
  }

  /**
   * The loop body once the link is classified: `isExcel` is the link test, `fileUrl` the
   * resolved URL and `filename` the derived name.
   */
  function Handle(p: Progress, isExcel: bool, fileUrl: string, filename: string, env: Env): Progress
  {
    if !isExcel || filename in p.seen then p
    else
      var seen := p.seen + {filename};
      var filePath := Join(env.outputDir, filename);
      if filePath in env.existing then p.(files := p.files + [filePath], seen := seen)
      else if fileUrl in env.responses && Accepts(env.responses[fileUrl]) && filePath !in env.unwritable then
        Progress(p.files + [filePath], seen, p.requested + [fileUrl], p.saved[filePath := env.responses[fileUrl]])
      else p.(seen := seen, requested := p.requested + [fileUrl])
  }

  /** One pass of the loop body on a link, once the cap test has let it through. */
  function Visit(p: Progress, link: Link, env: Env): Progress
  {
    Handle(p, IsExcelLink(link.href, Lower(link.text)), ResolveUrl(env.url, link.href), Filename(link.href), env)
  }

  /** The loop over the remaining links: stop at the cap or at the last link. */
  function ScanFrom(links: seq<Link>, p: Progress, limit: Option<int>, env: Env): Progress
    decreases |links|
  {
    if links == [] || Capped(limit, |p.files|) then p
    else ScanFrom(links[1..], Visit(p, links[0], env), limit, env)
  }

  /** What `download_excel_files` leaves behind; a page that cannot be fetched gives nothing. */
  function Downloaded(page: Option<seq<Link>>, limit: Option<int>, env: Env): Progress
  {
    match page
    case None => START
    case Some(links) => ScanFrom(links, START, limit, env)
  }

  /**
   * The invariant of the loop: every path is the output directory joined with a name that
   * has been seen and has a spreadsheet suffix; every path either was on disk beforehand
   * or has been written with a kept body; nothing on disk is overwritten.
   */
  ghost predicate Inv(p: Progress, env: Env)
  {
    var prefix := DirPrefix(env.outputDir);
    && (forall k :: 0 <= k < |p.files| ==>
          && |prefix| <= |p.files[k]| && p.files[k][..|prefix|] == prefix
          && p.files[k][|prefix|..] in p.seen
          && p.files[k] == Join(env.outputDir, p.files[k][|prefix|..])
          && EndsWithExcel(p.files[k]))
    && (forall k :: 0 <= k < |p.files| ==> p.files[k] in env.existing || p.files[k] in p.saved)
    && (forall path :: path in p.saved ==> path !in env.existing && path !in env.unwritable && Accepts(p.saved[path]))
  }

  predicate NoDuplicates(s: seq<string>)
  {
    forall i, j :: 0 <= i < j < |s| ==> s[i] != s[j]
  }

  /** A step that adds a path adds one that is not there yet, and keeps the invariant. */
  lemma HandlePreserves(p: Progress, isExcel: bool, fileUrl: string, filename: string, env: Env)
    requires Inv(p, env) && NoDuplicates(p.files)
    requires '/' !in filename && EndsWithExcel(filename)
    ensures var q := Handle(p, isExcel, fileUrl, filename, env);
            && Inv(q, env) && NoDuplicates(q.files)
            && |p.files| <= |q.files| <= |p.files| + 1
            && q.files[..|p.files|] == p.files
  {
    var q := Handle(p, isExcel, fileUrl, filename, env);
    if isExcel && filename !in p.seen {
      var filePath := Join(env.outputDir, filename);
      var prefix := DirPrefix(env.outputDir);
      JoinPlainName(env.outputDir, filename);
      JoinKeepsExcelSuffix(env.outputDir, filename);
      assert filePath[..|prefix|] == prefix;
      if q.files != p.files {
        assert q.files == p.files + [filePath];
        forall k | 0 <= k < |q.files|
          ensures q.files[k] in env.existing || q.files[k] in q.saved
        {
          if k < |p.files| { assert q.files[k] == p.files[k]; }
        }
      }
    }
  }

  lemma VisitPreserves(p: Progress, link: Link, env: Env)
    requires Inv(p, env) && NoDuplicates(p.files)
    ensures var q := Visit(p, link, env);
            && Inv(q, env) && NoDuplicates(q.files)
            && |p.files| <= |q.files| <= |p.files| + 1
            && q.files[..|p.files|] == p.files
  {
    FilenameShape(link.href);
    HandlePreserves(p, IsExcelLink(link.href, Lower(link.text)), ResolveUrl(env.url, link.href), Filename(link.href), env);
  }

  /** The whole loop keeps the invariant, adds at most one path per link, and respects the cap. */
  lemma {:induction false} ScanFromPreserves(links: seq<Link>, p: Progress, limit: Option<int>, env: Env)
    requires Inv(p, env) && NoDuplicates(p.files)
    requires limit.Some? && limit.value > 0 ==> |p.files| <= limit.value
    ensures var q := ScanFrom(links, p, limit, env);
            && Inv(q, env) && NoDuplicates(q.files)
            && |p.files| <= |q.files| <= |p.files| + |links|
            && (limit.Some? && limit.value > 0 ==> |q.files| <= limit.value)
    decreases |links|
  {
    if links != [] && !Capped(limit, |p.files|) {
      var v := Visit(p, links[0], env);
      VisitPreserves(p, links[0], env);
      ScanFromPreserves(links[1..], v, limit, env);
    }
  }

  /** `a` is a prefix of `b`. */
  predicate IsPrefix(a: seq<string>, b: seq<string>)
  {
    |a| <= |b| && b[..|a|] == a
  }

  lemma PrefixTransitive(a: seq<string>, b: seq<string>, c: seq<string>)
    requires IsPrefix(a, b) && IsPrefix(b, c)
    ensures IsPrefix(a, c)
  {
    assert c[..|a|] == c[..|b|][..|a|];
  }

  /** A step of the loop body appends at most one path. */
  lemma HandleAppends(p: Progress, isExcel: bool, fileUrl: string, filename: string, env: Env)
    ensures IsPrefix(p.files, Handle(p, isExcel, fileUrl, filename, env).files)
  {
    var q := Handle(p, isExcel, fileUrl, filename, env);
    assert q.files == p.files || q.files == p.files + [Join(env.outputDir, filename)];
  }

  /** The loop only appends: the paths listed so far stay, in order, at the front. */
  lemma {:induction false} ScanFromExtends(links: seq<Link>, p: Progress, limit: Option<int>, env: Env)
    ensures IsPrefix(p.files, ScanFrom(links, p, limit, env).files)
    decreases |links|
  {
    if links != [] && !Capped(limit, |p.files|) {
      var v := Visit(p, links[0], env);
      HandleAppends(p, IsExcelLink(links[0].href, Lower(links[0].text)), ResolveUrl(env.url, links[0].href),
                    Filename(links[0].href), env);
      ScanFromExtends(links[1..], v, limit, env);
      PrefixTransitive(p.files, v.files, ScanFrom(links[1..], v, limit, env).files);
    }
  }

  /** A negative limit stops the loop before its first link. */
  lemma NegativeLimitDownloadsNothing(page: Option<seq<Link>>, limit: int, env: Env)
    requires limit < 0
    ensures Downloaded(page, Some(limit), env) == START
  {
  }

  /** What the run returns: no duplicate path, every path a spreadsheet name in the output directory, at most `limit` of them. */
  lemma DownloadedShape(page: Option<seq<Link>>, limit: Option<int>, env: Env)
    ensures var d := Downloaded(page, limit, env);
            && NoDuplicates(d.files)
            && (forall k :: 0 <= k < |d.files| ==> EndsWithExcel(d.files[k]))
            && (forall k :: 0 <= k < |d.files| ==> d.files[k] in env.existing || d.files[k] in d.saved)
            && (forall path :: path in d.saved ==> path !in env.existing && path !in env.unwritable && Accepts(d.saved[path]))
            && (limit.Some? && limit.value > 0 ==> |d.files| <= limit.value)
            && (page.Some? ==> |d.files| <= |page.value|)
            && (page.None? ==> d.files == [] && d.requested == [] && d.saved == map[])
  {
    if page.Some? {
      ScanFromPreserves(page.value, START, limit, env);
    }
  }

  /** A link whose file is already on disk is listed without a request and counts toward the cap. */
  lemma VisitExistingFile(p: Progress, link: Link, env: Env)
    requires IsExcelLink(link.href, Lower(link.text))
    requires Filename(link.href) !in p.seen
    requires Join(env.outputDir, Filename(link.href)) in env.existing
    ensures Visit(p, link, env).files == p.files + [Join(env.outputDir, Filename(link.href))]
    ensures Visit(p, link, env).requested == p.requested
    ensures Visit(p, link, env).saved == p.saved
  {
  }

  /** A name is handled once: a later link with the same name changes nothing, even if the first fetch failed. */
  lemma VisitSeenName(p: Progress, link: Link, env: Env)
    requires Filename(link.href) in p.seen
    ensures Visit(p, link, env) == p
  {
  }

  /** A fetch that fails or is not kept leaves the list and the disk as they were. */
  lemma VisitRejected(p: Progress, link: Link, env: Env)
    requires IsExcelLink(link.href, Lower(link.text))
    requires Filename(link.href) !in p.seen
    requires Join(env.outputDir, Filename(link.href)) !in env.existing
    requires var u := ResolveUrl(env.url, link.href);
             u !in env.responses || !Accepts(env.responses[u])
             || Join(env.outputDir, Filename(link.href)) in env.unwritable
    ensures Visit(p, link, env).files == p.files
    ensures Visit(p, link, env).saved == p.saved
    ensures Visit(p, link, env).requested == p.requested + [ResolveUrl(env.url, link.href)]
    ensures Visit(p, link, env).seen == p.seen + {Filename(link.href)}
  {
  }

  /** A fetch that succeeds and is kept lists the path and writes the body under it. */
  lemma VisitAccepted(p: Progress, link: Link, env: Env)
    requires IsExcelLink(link.href, Lower(link.text))
    requires Filename(link.href) !in p.seen
    requires Join(env.outputDir, Filename(link.href)) !in env.existing
    requires var u := ResolveUrl(env.url, link.href); u in env.responses && Accepts(env.responses[u])
    requires Join(env.outputDir, Filename(link.href)) !in env.unwritable
    ensures var path := Join(env.outputDir, Filename(link.href));
            var u := ResolveUrl(env.url, link.href);
            && Visit(p, link, env).files == p.files + [path]
            && Visit(p, link, env).saved == p.saved[path := env.responses[u]]
            && Visit(p, link, env).requested == p.requested + [u]
            && Visit(p, link, env).seen == p.seen + {Filename(link.href)}
  {
  }

  /** The names of the spreadsheet links among `links`. */
  function ExcelNames(links: seq<Link>): set<string>
  {
    if links == [] then {}
    else (if IsExcelLink(links[0].href, Lower(links[0].text)) then {Filename(links[0].href)} else {})
         + ExcelNames(links[1..])
  }

  /** Every spreadsheet link contributes its name. */
  lemma {:induction false} ExcelNamesComplete(links: seq<Link>, j: int)
    requires 0 <= j < |links| && IsExcelLink(links[j].href, Lower(links[j].text))
    ensures Filename(links[j].href) in ExcelNames(links)
    decreases j
  {
    if j > 0 {
      assert links[1..][j - 1] == links[j];
      ExcelNamesComplete(links[1..], j - 1);
    }
  }

  /** The loop marks as seen only the names of the spreadsheet links it has visited. */
  lemma {:induction false} ScanFromSeen(links: seq<Link>, p: Progress, limit: Option<int>, env: Env)
    ensures ScanFrom(links, p, limit, env).seen <= p.seen + ExcelNames(links)
    decreases |links|
  {
    if links != [] && !Capped(limit, |p.files|) {
      var v := Visit(p, links[0], env);
      VisitSeenStep(p, links[0], env);
      ScanFromSeen(links[1..], v, limit, env);
      assert ExcelNames(links)
          == (if IsExcelLink(links[0].href, Lower(links[0].text)) then {Filename(links[0].href)} else {})
             + ExcelNames(links[1..]);
    }
  }

  /** One visit marks as seen at most the link's own name, and only for a spreadsheet link. */
  lemma VisitSeenStep(p: Progress, link: Link, env: Env)
    ensures Visit(p, link, env).seen
         <= p.seen + (if IsExcelLink(link.href, Lower(link.text)) then {Filename(link.href)} else {})
  {
    HandleSeenStep(p, IsExcelLink(link.href, Lower(link.text)), ResolveUrl(env.url, link.href),
                   Filename(link.href), env);
  }

  /** The loop body adds at most the name it handles to the seen set, and only for a spreadsheet link. */
  lemma HandleSeenStep(p: Progress, isExcel: bool, fileUrl: string, filename: string, env: Env)
    ensures Handle(p, isExcel, fileUrl, filename, env).seen <= p.seen + (if isExcel then {filename} else {})
  {
  }

  /** Running the loop over `a + b` is running it over `a`, then over `b`. */
  lemma {:induction false} ScanFromAppend(a: seq<Link>, b: seq<Link>, p: Progress, limit: Option<int>, env: Env)
    ensures ScanFrom(a + b, p, limit, env) == ScanFrom(b, ScanFrom(a, p, limit, env), limit, env)
    decreases |a|
  {
    if a == [] {
      assert a + b == b;
    } else if !Capped(limit, |p.files|) {
      assert (a + b)[0] == a[0];
      assert (a + b)[1..] == a[1..] + b;
      ScanFromAppend(a[1..], b, Visit(p, a[0], env), limit, env);
    }
  }

  /** A spreadsheet link with a new name whose file is on disk or kept gets its path listed. */
  lemma VisitLists(p: Progress, link: Link, env: Env)
    requires IsExcelLink(link.href, Lower(link.text))
    requires Filename(link.href) !in p.seen
    requires var u := ResolveUrl(env.url, link.href);
             Join(env.outputDir, Filename(link.href)) in env.existing
             || (u in env.responses && Accepts(env.responses[u])
                 && Join(env.outputDir, Filename(link.href)) !in env.unwritable)
    ensures Visit(p, link, env).files == p.files + [Join(env.outputDir, Filename(link.href))]
  {
    if Join(env.outputDir, Filename(link.href)) in env.existing {
      VisitExistingFile(p, link, env);
    } else {
      VisitAccepted(p, link, env);
    }
  }

  /** A path once listed stays listed to the end of the loop. */
  lemma ScanFromKeeps(links: seq<Link>, p: Progress, limit: Option<int>, env: Env, k: int)
    requires 0 <= k < |p.files|
    ensures p.files[k] in ScanFrom(links, p, limit, env).files
  {
    ScanFromExtends(links, p, limit, env);
    assert ScanFrom(links, p, limit, env).files[k] == p.files[k];
  }

  /** Before the cap, the run over `links` passes link k the progress made on `links[..k]`. */
  lemma ScanFromAt(links: seq<Link>, k: int, limit: Option<int>, env: Env)
    requires 0 <= k < |links|
    requires !Capped(limit, |ScanFrom(links[..k], START, limit, env).files|)
    ensures ScanFrom(links, START, limit, env)
         == ScanFrom(links[k + 1..], Visit(ScanFrom(links[..k], START, limit, env), links[k], env), limit, env)
  {
    var front, rest := links[..k], links[k..];
    SplitAt(links, k);
    ScanFromAppend(front, rest, START, limit, env);
    var q := ScanFrom(front, START, limit, env);
    assert rest != [] && rest[0] == links[k] && rest[1..] == links[k + 1..];
    ScanFromStep(rest, q, limit, env);
  }

  lemma SplitAt(links: seq<Link>, k: int)
    requires 0 <= k <= |links|
    ensures links[..k] + links[k..] == links
  {
  }

  /** One turn of the loop before the cap. */
  lemma ScanFromStep(links: seq<Link>, p: Progress, limit: Option<int>, env: Env)
    requires links != [] && !Capped(limit, |p.files|)
    ensures ScanFrom(links, p, limit, env) == ScanFrom(links[1..], Visit(p, links[0], env), limit, env)
  {
  }

  /**
   * The run returns whatever succeeded: a spreadsheet link reached before the cap, whose
   * name no earlier spreadsheet link has, has its path listed when the file was already on
   * disk or its fetch was kept.
   */
  lemma DownloadedIncludes(links: seq<Link>, k: int, limit: Option<int>, env: Env)
    requires 0 <= k < |links|
    requires IsExcelLink(links[k].href, Lower(links[k].text))
    requires Filename(links[k].href) !in ExcelNames(links[..k])
    requires !Capped(limit, |ScanFrom(links[..k], START, limit, env).files|)
    requires var u := ResolveUrl(env.url, links[k].href);
             Join(env.outputDir, Filename(links[k].href)) in env.existing
             || (u in env.responses && Accepts(env.responses[u])
                 && Join(env.outputDir, Filename(links[k].href)) !in env.unwritable)
    ensures Join(env.outputDir, Filename(links[k].href)) in Downloaded(Some(links), limit, env).files
  {
    var q := ScanFrom(links[..k], START, limit, env);
    ScanFromSeen(links[..k], START, limit, env);
    VisitThenKeeps(links[k + 1..], q, links[k], limit, env);
    ScanFromAt(links, k, limit, env);
  }

  /** A link with a new name whose file is on disk or kept and written stays listed to the end. */
  lemma VisitThenKeeps(rest: seq<Link>, q: Progress, link: Link, limit: Option<int>, env: Env)
    requires IsExcelLink(link.href, Lower(link.text))
    requires Filename(link.href) !in q.seen
    requires var u := ResolveUrl(env.url, link.href);
             Join(env.outputDir, Filename(link.href)) in env.existing
             || (u in env.responses && Accepts(env.responses[u])
                 && Join(env.outputDir, Filename(link.href)) !in env.unwritable)
    ensures Join(env.outputDir, Filename(link.href)) in ScanFrom(rest, Visit(q, link, env), limit, env).files
  {
    VisitLists(q, link, env);
    var v := Visit(q, link, env);
    ScanFromKeeps(rest, v, limit, env, |v.files| - 1);
  }

  /**
   * `download_excel_files(url, output_dir, limit)`: `page` is the listing page's links, or
   * `None` when fetching it raised.
   */
  method DownloadExcelFiles(url: string, outputDir: string := "applications", limit: Option<int> := None, page: Option<seq<Link>>,
                            existing: set<string>, responses: map<string, Response>, unwritable: set<string>)
    returns (excelFiles: seq<string>, requested: seq<string>, saved: map<string, Response>)
    ensures var d := Downloaded(page, limit, Env(url, outputDir, existing, responses, unwritable));
            excelFiles == d.files && requested == d.requested && saved == d.saved
    ensures NoDuplicates(excelFiles)
    ensures forall k :: 0 <= k < |excelFiles| ==> EndsWithExcel(excelFiles[k])
    ensures forall k :: 0 <= k < |excelFiles| ==> excelFiles[k] in existing || excelFiles[k] in saved
    ensures forall path :: path in saved ==> path !in existing && path !in unwritable && Accepts(saved[path])
    ensures limit.Some? && limit.value > 0 ==> |excelFiles| <= limit.value
  {
    var env := Env(url, outputDir, existing, responses, unwritable);
    DownloadedShape(page, limit, env);
    excelFiles, requested, saved := [], [], map[];
    if page.None? {
      return;
    }
    var links := page.value;
    var seenFiles: set<string> := {};
    for i := 0 to |links|
      invariant ScanFrom(links[i..], Progress(excelFiles, seenFiles, requested, saved), limit, env)
                == ScanFrom(links, START, limit, env)
    {
      ghost var before := Progress(excelFiles, seenFiles, requested, saved);
      if limit.Some? && limit.value != 0 && |excelFiles| >= limit.value {
        break;
      }
      assert links[i..][0] == links[i] && links[i..][1..] == links[i + 1..];
      var href := links[i].href;
      var linkText := Lower(links[i].text);
      var isExcel := IsExcelLink(href, linkText);
      if isExcel {
        var fileUrl := ResolveUrl(url, href);
        var filename := Filename(href);
        if filename in seenFiles {
          assert before == Visit(before, links[i], env);
          continue;
        }
        seenFiles := seenFiles + {filename};
        var filePath := Join(outputDir, filename);
        if filePath in existing {
          excelFiles := excelFiles + [filePath];
          assert Progress(excelFiles, seenFiles, requested, saved) == Visit(before, links[i], env);
          continue;
        }
        requested := requested + [fileUrl];
        if fileUrl in responses {
          var fileResponse := responses[fileUrl];
          if Accepts(fileResponse) && filePath !in unwritable {
            saved := saved[filePath := fileResponse];
            excelFiles := excelFiles + [filePath];
          }
        }
      }
      assert Progress(excelFiles, seenFiles, requested, saved) == Visit(before, links[i], env);
    }
  }

  // ------------------------------------------------------------------------------------
  // find_excel_files_in_directory

  /** The listed names with a spreadsheet suffix, joined to the directory, in listing order. */
  function ExcelFilesIn(directory: string, names: seq<string>): seq<string>
  {
    if names == [] then []
    else
      var last := names[|names| - 1];
      ExcelFilesIn(directory, names[..|names| - 1]) + (if EndsWithExcel(last) then [Join(directory, last)] else [])
  }

  /** Every listed spreadsheet name gives its path. */
  lemma {:induction false} ExcelFilesInComplete(directory: string, names: seq<string>, k: int)
    requires 0 <= k < |names| && EndsWithExcel(names[k])
    ensures Join(directory, names[k]) in ExcelFilesIn(directory, names)
    decreases |names|
  {
    var front := names[..|names| - 1];
    if k < |front| {
      assert front[k] == names[k];
      ExcelFilesInComplete(directory, front, k);
    }
  }

  /** Every path comes from a listed spreadsheet name; `k` is its position in the listing. */
  lemma {:induction false} ExcelFilesInSound(directory: string, names: seq<string>, path: string) returns (k: int)
    requires path in ExcelFilesIn(directory, names)
    ensures 0 <= k < |names| && EndsWithExcel(names[k]) && path == Join(directory, names[k])
    decreases |names|
  {
    var front := names[..|names| - 1];
    if path in ExcelFilesIn(directory, front) {
      k := ExcelFilesInSound(directory, front, path);
      assert front[k] == names[k];
    } else {
      k := |names| - 1;
    }
  }

  /** No more paths than names, and none at all from a listing without spreadsheet names. */
  lemma {:induction false} ExcelFilesInLength(directory: string, names: seq<string>)
    ensures |ExcelFilesIn(directory, names)| <= |names|
    ensures (forall k :: 0 <= k < |names| ==> !EndsWithExcel(names[k])) ==> ExcelFilesIn(directory, names) == []
    decreases |names|
  {
    if names != [] {
      var front := names[..|names| - 1];
      ExcelFilesInLength(directory, front);
      if forall k :: 0 <= k < |names| ==> !EndsWithExcel(names[k]) {
        assert forall k :: 0 <= k < |front| ==> !EndsWithExcel(front[k]) by {
          forall k | 0 <= k < |front| ensures !EndsWithExcel(front[k]) { assert front[k] == names[k]; }
        }
      }
    }
  }

  /**
   * `find_excel_files_in_directory(directory)`: `listing` is `os.listdir(directory)`, or
   * `None` when the directory does not exist.
   */
  method FindExcelFilesInDirectory(directory: string := "applications", listing: Option<seq<string>>) returns (excelFiles: seq<string>)
    ensures listing.None? ==> excelFiles == []
    ensures listing.Some? ==> excelFiles == ExcelFilesIn(directory, listing.value)
  {
    excelFiles := [];
    if listing.Some? {
      var names := listing.value;
      for i := 0 to |names|
        invariant excelFiles == ExcelFilesIn(directory, names[..i])
      {
        assert names[..i + 1][..i] == names[..i];
        if EndsWithExcel(names[i]) {
          excelFiles := excelFiles + [Join(directory, names[i])];
        }
      }
      assert names[..|names|] == names;
    }
  }
}
