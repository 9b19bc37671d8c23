/** Request routing, and the classifications of requests that must agree with it. */
module Routes {
  import opened Options
  import opened Hits

  datatype Verb = GET | HEAD | OPTIONS | POST | PUT | DELETE | OTHER

  datatype Handler =
    | BulkWrite | MultiSearch | Root | Health | Healthz | Readyz | Compatibility
    | AliasUpdate | AliasGet | AliasHead | IndexCreate | IndexDelete | IndexHead | IndexControl | IndexInfo
    | MappingGet | MappingPut | DocWrite | DocCreate | DocGet | DocHead | DocDelete | DocUpdate
    | Search | Count | BadPath | Unsupported

  /** Percent-decoding of one segment; fails on text that is not UTF-8. */
  type Decoder = string -> Option<string>

  /** Segments without a percent sign decode to themselves. */
  ghost predicate Decodes(decode: Decoder) {
    forall s: string :: '%' !in s ==> decode(s) == Some(s)
  }

  function TrimFront(s: string): string {
    if s != [] && s[0] == '/' then TrimFront(s[1..]) else s
  }

  function TrimBack(s: string): string {
    if s != [] && s[|s| - 1] == '/' then TrimBack(s[..|s| - 1]) else s
  }

  function DecodeAll(decode: Decoder, parts: seq<string>): Option<seq<string>> {
    if parts == [] then Some([])
    else
      var front, last := DecodeAll(decode, parts[..|parts| - 1]), decode(parts[|parts| - 1]);
      if front.None? || last.None? then None else Some(front.value + [last.value])
  }

  function Segments(decode: Decoder, path: string): Option<seq<string>> {
    DecodeAll(decode, Split(TrimBack(TrimFront(path)), '/'))
  }

  predicate EndsWith(s: string, suffix: string) {
    |s| >= |suffix| && s[|s| - |suffix|..] == suffix
  }

  predicate IsBulkRequest(verb: Verb, path: string) {
    (verb.POST? || verb.PUT?) && EndsWith(path, "/_bulk")
  }

  /** The segment names routing looks for. */
  datatype Word =
    | AliasWord | RefreshWord | OpenWord | CloseWord | SettingsWord | MappingWord | DocWord | CreateWord
    | UpdateWord | BulkWord | SearchWord | MultiSearchWord | CountWord | PlainWord

  function WordOf(s: string): Word {
    if s == "_alias" then AliasWord else if s == "_refresh" then RefreshWord
    else if s == "_open" then OpenWord else if s == "_close" then CloseWord
    else if s == "_settings" then SettingsWord else if s == "_mapping" then MappingWord
    else if s == "_doc" then DocWord else if s == "_create" then CreateWord
    else if s == "_update" then UpdateWord else if s == "_bulk" then BulkWord
    else if s == "_search" then SearchWord else if s == "_msearch" then MultiSearchWord
    else if s == "_count" then CountWord else PlainWord
  }

  /** The undecoded paths routing compares whole. */
  datatype FixedPath = RootPath | HealthPath | HealthzPath | ReadyzPath | CompatibilityPath | AliasesPath | OtherPath

  function FixedPathOf(path: string): FixedPath {
    if path == "/" then RootPath else if path == "/_cluster/health" then HealthPath
    else if path == "/healthz" then HealthzPath else if path == "/readyz" then ReadyzPath
    else if path == "/_qdrant_gateway/compatibility" then CompatibilityPath
    else if path == "/_aliases" then AliasesPath else OtherPath
  }

  /** Requests in the order the dispatcher tries its routes. */
  function Route(decode: Decoder, verb: Verb, path: string): Handler {
    var parts := Segments(decode, path);
    if IsBulkRequest(verb, path) then BulkWrite
    else if verb.POST? && EndsWith(path, "/_msearch") then MultiSearch
    else if parts.None? then BadPath
    else RouteSegments(verb, FixedPathOf(path), |parts.value|, WordAt(parts.value, 0), WordAt(parts.value, 1))
  }

  function WordAt(parts: seq<string>, i: nat): Word {
    if i < |parts| then WordOf(parts[i]) else PlainWord
  }

  /** `n` segments, the first two being `a` and `b`. */
  function RouteSegments(verb: Verb, path: FixedPath, n: nat, a: Word, b: Word): Handler {
    if path.RootPath? && verb.GET? then Root
    else if path.HealthPath? && verb.GET? then Health
    else if path.HealthzPath? && verb.GET? then Healthz
    else if path.ReadyzPath? && verb.GET? then Readyz
    else if path.CompatibilityPath? then Compatibility
    else if path.AliasesPath? && verb.POST? then AliasUpdate
    else if n == 2 && a.AliasWord? && verb.GET? then AliasGet
    else if n == 2 && a.AliasWord? && verb.HEAD? then AliasHead
    else if n == 1 && verb.PUT? then IndexCreate
    else if n == 1 && verb.DELETE? then IndexDelete
    else if n == 1 && verb.HEAD? then IndexHead
    else if n == 2 && (b.RefreshWord? || b.OpenWord? || b.CloseWord?) && verb.POST? then IndexControl
    else if n == 2 && b.SettingsWord? && (verb.GET? || verb.PUT?) then IndexControl
    else if n == 1 && verb.GET? then IndexInfo
    else if n == 2 && b.MappingWord? && verb.GET? then MappingGet
    else if n == 2 && b.MappingWord? && verb.PUT? then MappingPut
    else if n == 3 && b.DocWord? && verb.PUT? then DocWrite
    else if n == 3 && b.CreateWord? && (verb.PUT? || verb.POST?) then DocCreate
    else if n == 2 && b.DocWord? && verb.POST? then DocWrite
    else if n == 3 && b.DocWord? && verb.GET? then DocGet
    else if n == 3 && b.DocWord? && verb.HEAD? then DocHead
    else if n == 3 && b.DocWord? && verb.DELETE? then DocDelete
    else if n == 3 && b.UpdateWord? && verb.POST? then DocUpdate
    else if n == 2 && b.BulkWord? && verb.POST? then BulkWrite
    else if n == 2 && b.SearchWord? && (verb.GET? || verb.POST?) then Search
    else if n == 2 && b.CountWord? && (verb.GET? || verb.POST?) then Count
    else Unsupported
  }

  /** The handlers that send backend writes or change the catalog. */
  predicate Writes(h: Handler) {
    h.BulkWrite? || Administers(h) || h.DocWrite? || h.DocCreate? || h.DocDelete? || h.DocUpdate?
  }

  predicate Administers(h: Handler) {
    h.AliasUpdate? || h.IndexCreate? || h.IndexDelete? || h.MappingPut?
  }

  // ---------------------------------------------------------------- the classifications

  /** Requests fenced by a writer token. */
  predicate Mutating(decode: Decoder, verb: Verb, path: string) {
    if verb.GET? || verb.HEAD? || verb.OPTIONS? then false
    else if !verb.POST? then true
    else match Segments(decode, path)
      case None => true
      case Some(parts) =>
        && !(|parts| == 1 && WordAt(parts, 0).MultiSearchWord?)
        && !(|parts| == 2 && (WordAt(parts, 1).SearchWord? || WordAt(parts, 1).MultiSearchWord? || WordAt(parts, 1).CountWord?))
  }

  /** Requests that take the administrative claim; none when the path does not decode. */
  function IsAdmin(decode: Decoder, verb: Verb, path: string): Option<bool> {
    if IsBulkRequest(verb, path) then Some(false)
    else match Segments(decode, path)
      case None => None
      case Some(parts) => Some(|| (|parts| == 1 && (verb.PUT? || verb.DELETE?))
                               || (FixedPathOf(path).AliasesPath? && verb.POST?)
                               || (|parts| == 2 && WordAt(parts, 1).MappingWord? && verb.PUT?))
  }

  /** Requests whose whole metadata access is one immutable view. */
  predicate UsesReadView(decode: Decoder, verb: Verb, path: string) {
    match Segments(decode, path)
    case None => false
    case Some(parts) =>
      if |parts| == 3 then verb.GET? && WordAt(parts, 1).DocWord?
      else |parts| == 2 && WordAt(parts, 1).SearchWord? && (verb.GET? || verb.POST?)
           && !(verb.GET? && WordAt(parts, 0).AliasWord?)
  }

  // ---------------------------------------------------------------- last segments

  lemma {:induction false} SplitPlain(t: string)
    requires '/' !in t
    ensures Split(t, '/') == [t]
  {
    if t != [] {
      assert t == [t[0]] + t[1..];
      SplitPlain(t[1..]);
    }
  }

  lemma {:induction false} SplitLast(s: string, t: string)
    requires '/' !in t
    ensures |Split(s + "/" + t, '/')| >= 2 && Split(s + "/" + t, '/')[|Split(s + "/" + t, '/')| - 1] == t
    decreases |s|
  {
    var whole := s + "/" + t;
    if s == [] {
      assert whole[1..] == t;
      SplitPlain(t);
    } else {
      assert whole[1..] == s[1..] + "/" + t && whole[0] == s[0];
      SplitLast(s[1..], t);
    }
  }

  lemma {:induction false} TrimmedEnding(s: string, t: string)
    requires t != [] && '/' !in t
    ensures TrimFront(s + "/" + t) == t || exists rest :: TrimFront(s + "/" + t) == rest + "/" + t
    decreases |s|
  {
    var whole := s + "/" + t;
    if s == [] {
      assert whole[1..] == t && t[0] in t;
      assert TrimFront(t) == t;
    } else if s[0] == '/' {
      assert whole[1..] == s[1..] + "/" + t;
      TrimmedEnding(s[1..], t);
    } else {
      assert whole[0] == s[0];
      assert TrimFront(whole) == s + "/" + t;
    }
  }

  lemma LastPart(decode: Decoder, path: string, t: string)
    requires Decodes(decode) && EndsWith(path, "/" + t) && t != [] && '/' !in t && '%' !in t
    ensures Segments(decode, path).Some? ==>
              var parts := Segments(decode, path).value; parts != [] && parts[|parts| - 1] == t
  {
    var s := path[..|path| - |t| - 1];
    assert path == s + ("/" + t) == s + "/" + t;
    TrimmedEnding(s, t);
    var trimmed := TrimFront(path);
    if trimmed == t {
      SplitPlain(t);
    } else {
      var rest :| trimmed == rest + "/" + t;
      SplitLast(rest, t);
    }
    assert trimmed[|trimmed| - 1] == t[|t| - 1] && t[|t| - 1] in t;
    assert TrimBack(trimmed) == trimmed;
    var parts := Split(trimmed, '/');
    assert parts[|parts| - 1] == t;
  }

  lemma NothingToTrim(t: string)
    requires t != [] && t[0] != '/' && t[|t| - 1] != '/'
    ensures TrimFront(t) == t && TrimBack(t) == t
  {
  }

  lemma DecodeOne(decode: Decoder, s: string)
    requires Decodes(decode) && '%' !in s
    ensures DecodeAll(decode, [s]) == Some([s])
  {
    assert [s][..0] == [] && DecodeAll(decode, []) == Some([]);
    assert [] + [s] == [s];
  }

  lemma KnownPath(decode: Decoder, path: string, t: string)
    requires Decodes(decode) && path == "/" + t && t != [] && '/' !in t && '%' !in t
    ensures Segments(decode, path) == Some([t])
  {
    assert path[1..] == t && t[0] in t && t[|t| - 1] in t;
    NothingToTrim(t);
    assert TrimFront(path) == t;
    SplitPlain(t);
    DecodeOne(decode, t);
  }

  lemma {:induction false} DecodeKeepsCount(decode: Decoder, parts: seq<string>)
    ensures DecodeAll(decode, parts).Some? ==> |DecodeAll(decode, parts).value| == |parts|
  {
    if parts != [] {
      DecodeKeepsCount(decode, parts[..|parts| - 1]);
    }
  }

  // ---------------------------------------------------------------- what the raw endings say of the segments

  /** A bulk path's last segment is the bulk word, so it is none of the exempt ones. */
  lemma BulkSegments(decode: Decoder, verb: Verb, path: string)
    requires Decodes(decode) && IsBulkRequest(verb, path) && Segments(decode, path).Some?
    ensures var parts := Segments(decode, path).value; parts != [] && WordAt(parts, |parts| - 1).BulkWord?
  {
    LastPart(decode, path, "_bulk");
    hide Segments;
    assert WordOf("_bulk").BulkWord?;
  }

  lemma MultiSearchSegments(decode: Decoder, path: string)
    requires Decodes(decode) && EndsWith(path, "/_msearch") && Segments(decode, path).Some?
    ensures var parts := Segments(decode, path).value; parts != [] && WordAt(parts, |parts| - 1).MultiSearchWord?
    ensures !FixedPathOf(path).AliasesPath?
  {
    LastPart(decode, path, "_msearch");
    hide Segments;
    assert WordOf("_msearch").MultiSearchWord?;
    assert path[|path| - 2] == 'c' by { assert path[|path| - 9..][7] == 'c'; }
  }

  lemma BulkIsNotAliases(verb: Verb, path: string)
    requires IsBulkRequest(verb, path)
    ensures FixedPathOf(path).OtherPath?
  {
    assert path[|path| - 1] == 'k' by { assert path[|path| - 6..][5] == 'k'; }
  }

  lemma FixedPathIs(path: string)
    ensures FixedPathOf(path).RootPath? <==> path == "/"
    ensures FixedPathOf(path).AliasesPath? ==> path == "/_aliases"
    ensures FixedPathOf(path).HealthzPath? ==> path == "/healthz"
    ensures FixedPathOf(path).ReadyzPath? ==> path == "/readyz"
    ensures FixedPathOf(path).HealthPath? ==> path == "/_cluster/health"
    ensures FixedPathOf(path).CompatibilityPath? ==> path == "/_qdrant_gateway/compatibility"
  {
  }

  lemma PlainWords()
    ensures WordOf("_aliases").PlainWord? && WordOf("healthz").PlainWord? && WordOf("readyz").PlainWord?
    ensures WordOf("health").PlainWord? && WordOf("compatibility").PlainWord?
  {
  }

  /** The fixed paths have as many segments as they show. */
  lemma FixedSegments(decode: Decoder, path: string)
    requires Decodes(decode)
    ensures FixedPathOf(path).AliasesPath? || FixedPathOf(path).HealthzPath? || FixedPathOf(path).ReadyzPath? ==>
              Segments(decode, path).Some? && |Segments(decode, path).value| == 1
              && WordAt(Segments(decode, path).value, 0).PlainWord?
    ensures FixedPathOf(path).RootPath? && Segments(decode, path).Some? ==> |Segments(decode, path).value| == 1
  {
    hide FixedPathOf, WordOf, Segments;
    FixedPathIs(path);
    PlainWords();
    match FixedPathOf(path) {
      case AliasesPath => KnownPath(decode, path, "_aliases");
      case HealthzPath => KnownPath(decode, path, "healthz");
      case ReadyzPath => KnownPath(decode, path, "readyz");
      case RootPath => RootSegments(decode);
      case _ =>
    }
  }

  lemma RootSegments(decode: Decoder)
    ensures Segments(decode, "/").Some? ==> |Segments(decode, "/").value| == 1
  {
    assert "/"[1..] == [] && TrimFront("/") == [] && TrimBack([]) == [];
    SplitPlain([]);
    DecodeKeepsCount(decode, [[]]);
  }

  lemma SlashedFixedSegments(decode: Decoder, path: string)
    requires Decodes(decode) && Segments(decode, path).Some?
    ensures FixedPathOf(path).HealthPath? || FixedPathOf(path).CompatibilityPath? ==>
              |Segments(decode, path).value| == 2 && WordAt(Segments(decode, path).value, 1).PlainWord?
  {
    hide *;
    FixedPathIs(path);
    if FixedPathOf(path).HealthPath? {
      HealthSegments(decode, path);
    } else if FixedPathOf(path).CompatibilityPath? {
      CompatibilitySegments(decode, path);
    }
  }

  lemma HealthSegments(decode: Decoder, path: string)
    requires Decodes(decode) && path == "/_cluster/health" && Segments(decode, path).Some?
    ensures |Segments(decode, path).value| == 2 && WordAt(Segments(decode, path).value, 1).PlainWord?
  {
    hide WordOf, Segments, Decodes;
    PlainWords();
    TwoSegments(decode, path, "_cluster", "health");
  }

  lemma CompatibilitySegments(decode: Decoder, path: string)
    requires Decodes(decode) && path == "/_qdrant_gateway/compatibility" && Segments(decode, path).Some?
    ensures |Segments(decode, path).value| == 2 && WordAt(Segments(decode, path).value, 1).PlainWord?
  {
    hide WordOf, Segments, Decodes;
    PlainWords();
    TwoSegments(decode, path, "_qdrant_gateway", "compatibility");
  }

  lemma TwoSegments(decode: Decoder, path: string, s: string, t: string)
    requires Decodes(decode) && path == "/" + s + "/" + t
    requires s != [] && t != [] && '/' !in s && '/' !in t && '%' !in t && '%' !in s
    ensures Segments(decode, path) == Some([s, t])
  {
    var body := s + "/" + t;
    assert path[1..] == body && body[0] == s[0] && s[0] in s;
    assert body[|body| - 1] == t[|t| - 1] && t[|t| - 1] in t;
    NothingToTrim(body);
    assert TrimFront(path) == body;
    SplitTwo(s, t);
    DecodeOne(decode, s);
    assert [s, t][..1] == [s] && [s] + [t] == [s, t];
  }

  lemma {:induction false} SplitTwo(s: string, t: string)
    requires '/' !in s && '/' !in t
    ensures Split(s + "/" + t, '/') == [s, t]
    decreases |s|
  {
    var whole := s + "/" + t;
    SplitPlain(t);
    if s == [] {
      assert whole[1..] == t;
    } else {
      assert s == [s[0]] + s[1..];
      assert whole[1..] == s[1..] + "/" + t && whole[0] == s[0];
      SplitTwo(s[1..], t);
    }
  }

  // ---------------------------------------------------------------- agreement with the routes

  /** Every request that reaches a writing handler is fenced. */
  lemma WritersAreFenced(decode: Decoder, verb: Verb, path: string)
    requires Decodes(decode) && Writes(Route(decode, verb, path))
    ensures Mutating(decode, verb, path)
  {
    hide Segments, Decodes, FixedPathOf, WordOf, EndsWith;
    FixedSegments(decode, path);
    if IsBulkRequest(verb, path) && Segments(decode, path).Some? {
      BulkSegments(decode, verb, path);
    }
  }

  /** The claim is taken exactly for the handlers that change the catalog. */
  lemma ClaimsMatchRoutes(decode: Decoder, verb: Verb, path: string)
    requires Decodes(decode)
    ensures IsAdmin(decode, verb, path) == Some(true) <==> Administers(Route(decode, verb, path))
  {
    hide Segments, Decodes, FixedPathOf, WordOf, EndsWith;
    FixedSegments(decode, path);
    if Segments(decode, path).Some? {
      SlashedFixedSegments(decode, path);
      if EndsWith(path, "/_msearch") {
        MultiSearchSegments(decode, path);
      }
    }
  }

  /** The read view serves exactly searches and document reads, so never a request that claims. */
  lemma ReadViewMatchesRoutes(decode: Decoder, verb: Verb, path: string)
    requires Decodes(decode)
    ensures UsesReadView(decode, verb, path) <==> Route(decode, verb, path).Search? || Route(decode, verb, path).DocGet?
    ensures UsesReadView(decode, verb, path) ==> IsAdmin(decode, verb, path) == Some(false)
  {
    hide Segments, Decodes, FixedPathOf, WordOf, EndsWith;
    FixedSegments(decode, path);
    if Segments(decode, path).Some? {
      SlashedFixedSegments(decode, path);
      if EndsWith(path, "/_msearch") {
        MultiSearchSegments(decode, path);
      }
      if IsBulkRequest(verb, path) {
        BulkSegments(decode, verb, path);
        BulkIsNotAliases(verb, path);
      }
    }
  }

  /** Searches and counts are not fenced, nor are multi-searches of at most one index. */
  lemma ReadersAreNotFenced(decode: Decoder, verb: Verb, path: string)
    requires Decodes(decode)
    ensures Route(decode, verb, path).Search? || Route(decode, verb, path).Count? ==> !Mutating(decode, verb, path)
    ensures Route(decode, verb, path).MultiSearch? && Segments(decode, path).Some? ==>
              (Mutating(decode, verb, path) <==> |Segments(decode, path).value| > 2)
    ensures verb in {GET, HEAD, OPTIONS} ==> !Mutating(decode, verb, path)
  {
    hide Segments, Decodes, FixedPathOf, WordOf, EndsWith;
    FixedSegments(decode, path);
    if Segments(decode, path).Some? {
      SlashedFixedSegments(decode, path);
      if EndsWith(path, "/_msearch") {
        MultiSearchSegments(decode, path);
      }
      if IsBulkRequest(verb, path) {
        BulkSegments(decode, verb, path);
      }
    }
  }

  // ---------------------------------------------------------------- the documented endpoints

  /** A name that is no endpoint word. */
  predicate IsName(s: string) {
    && s != [] && '/' !in s && '%' !in s && s[0] != '_'
  }

  lemma NamesArePlain(s: string)
    requires IsName(s)
    ensures WordOf(s).PlainWord?
  {
    assert "_alias"[0] == '_' && "_refresh"[0] == '_' && "_open"[0] == '_' && "_close"[0] == '_' && "_settings"[0] == '_';
    assert "_mapping"[0] == '_' && "_doc"[0] == '_' && "_create"[0] == '_' && "_update"[0] == '_' && "_bulk"[0] == '_';
    assert "_search"[0] == '_' && "_msearch"[0] == '_' && "_count"[0] == '_';
  }

  lemma {:induction false} SplitMore(s: string, rest: string)
    requires '/' !in s
    ensures Split(s + "/" + rest, '/') == [s] + Split(rest, '/')
    decreases |s|
  {
    var whole := s + "/" + rest;
    if s == [] {
      assert whole[1..] == rest;
    } else {
      assert s == [s[0]] + s[1..];
      assert whole[1..] == s[1..] + "/" + rest && whole[0] == s[0];
      SplitMore(s[1..], rest);
    }
  }

  lemma ThreeSegments(decode: Decoder, path: string, a: string, b: string, c: string)
    requires Decodes(decode) && path == "/" + a + "/" + b + "/" + c
    requires a != [] && b != [] && c != [] && '/' !in a && '/' !in b && '/' !in c && '%' !in a && '%' !in b && '%' !in c
    ensures Segments(decode, path) == Some([a, b, c])
  {
    var tail := b + "/" + c;
    var body := a + "/" + tail;
    assert path[1..] == body && body[0] == a[0] && a[0] in a;
    assert body[|body| - 1] == c[|c| - 1] && c[|c| - 1] in c;
    NothingToTrim(body);
    assert TrimFront(path) == body;
    SplitMore(a, tail);
    SplitTwo(b, c);
    assert [a] + [b, c] == [a, b, c];
    assert Segments(decode, path) == DecodeAll(decode, [a, b, c]);
    hide Split, TrimFront, TrimBack, Segments;
    DecodeOne(decode, a);
    assert decode(b) == Some(b) && decode(c) == Some(c);
    assert [a, b][..1] == [a] && [a] + [b] == [a, b];
    assert DecodeAll(decode, [a, b]) == Some([a, b]);
    assert [a, b, c][..2] == [a, b] && [a, b] + [c] == [a, b, c];
    assert DecodeAll(decode, [a, b, c]) == Some([a, b, c]);
  }

  /** Whole paths that routing compares, and the endings it looks for, are not among these. */
  lemma NameFirst(path: string, name: string, rest: string)
    requires IsName(name) && path == "/" + name + rest && (rest == "" || (rest[0] == '/' && |rest| > 1))
    ensures FixedPathOf(path).OtherPath? || FixedPathOf(path).HealthzPath? || FixedPathOf(path).ReadyzPath?
    ensures rest != "" ==> FixedPathOf(path).OtherPath?
  {
    assert path[1] == name[0] && path[1] != '_';
    assert "/_cluster/health"[1] == '_' && "/_qdrant_gateway/compatibility"[1] == '_' && "/_aliases"[1] == '_';
    assert |path| > 1;
    if rest != "" {
      assert path[|name| + 1] == '/' && |name| + 1 >= 2;
      assert forall k :: 2 <= k < |"/healthz"| ==> "/healthz"[k] != '/';
      assert forall k :: 2 <= k < |"/readyz"| ==> "/readyz"[k] != '/';
    }
  }

  lemma LastIsWord(path: string, front: string, last: string, word: string)
    requires path == front + "/" + last && '/' !in last && '/' !in word && EndsWith(path, "/" + word)
    ensures last == word
  {
    var before := path[..|path| - |word| - 1];
    assert path == before + ("/" + word) == before + "/" + word;
    SplitLast(front, last);
    SplitLast(before, word);
  }

  /** `/index/word` reaches the handler of the word. */
  lemma IndexEndpoints(decode: Decoder, verb: Verb, index: string, word: string)
    requires Decodes(decode) && IsName(index)
    requires word in {"_doc", "_search", "_count", "_mapping", "_bulk", "_msearch"}
    ensures Route(decode, verb, "/" + index + "/" + word) ==
            if word == "_doc" then (if verb.POST? then DocWrite else Unsupported)
            else if word == "_search" then (if verb.GET? || verb.POST? then Search else Unsupported)
            else if word == "_count" then (if verb.GET? || verb.POST? then Count else Unsupported)
            else if word == "_mapping" then (if verb.GET? then MappingGet else if verb.PUT? then MappingPut else Unsupported)
            else if word == "_bulk" then (if verb.POST? || verb.PUT? then BulkWrite else Unsupported)
            else (if verb.POST? then MultiSearch else Unsupported)
  {
    var path := "/" + index + "/" + word;
    WordsArePlain(word);
    NamesArePlain(index);
    TwoSegments(decode, path, index, word);
    assert path == "/" + index + ("/" + word);
    NameFirst(path, index, "/" + word);
    EndingIs(path, "/" + index, word);
    hide *;
    PlainRoute(decode, verb, path, [index, word]);
    TwoSegmentRoutes(verb, WordOf(word));
    FirstWords([index, word]);
  }

  lemma FirstWords(parts: seq<string>)
    ensures |parts| > 0 ==> WordAt(parts, 0) == WordOf(parts[0])
    ensures |parts| > 1 ==> WordAt(parts, 1) == WordOf(parts[1])
    ensures |parts| == 1 ==> WordAt(parts, 1).PlainWord?
  {
    hide WordOf;
  }

  lemma PlainRoute(decode: Decoder, verb: Verb, path: string, parts: seq<string>)
    requires Segments(decode, path) == Some(parts) && FixedPathOf(path).OtherPath?
    ensures Route(decode, verb, path) ==
            if (verb.POST? || verb.PUT?) && EndsWith(path, "/_bulk") then BulkWrite
            else if verb.POST? && EndsWith(path, "/_msearch") then MultiSearch
            else RouteSegments(verb, OtherPath, |parts|, WordAt(parts, 0), WordAt(parts, 1))
  {
    hide Segments, FixedPathOf, WordAt, EndsWith, RouteSegments;
  }

  lemma TwoSegmentRoutes(verb: Verb, word: Word)
    ensures word.DocWord? ==> RouteSegments(verb, OtherPath, 2, PlainWord, word) == if verb.POST? then DocWrite else Unsupported
    ensures word.SearchWord? ==> RouteSegments(verb, OtherPath, 2, PlainWord, word) == if verb.GET? || verb.POST? then Search else Unsupported
    ensures word.CountWord? ==> RouteSegments(verb, OtherPath, 2, PlainWord, word) == if verb.GET? || verb.POST? then Count else Unsupported
    ensures word.MappingWord? ==> RouteSegments(verb, OtherPath, 2, PlainWord, word) ==
                                  if verb.GET? then MappingGet else if verb.PUT? then MappingPut else Unsupported
    ensures (word.BulkWord? && !verb.POST?) || word.MultiSearchWord? ==> RouteSegments(verb, OtherPath, 2, PlainWord, word) == Unsupported
  {
  }

  function DocumentHandler(verb: Verb): Handler {
    match verb case PUT => DocWrite case GET => DocGet case HEAD => DocHead case DELETE => DocDelete case _ => Unsupported
  }

  lemma ThreeSegmentRoutes(verb: Verb, word: Word)
    ensures word.DocWord? ==> RouteSegments(verb, OtherPath, 3, PlainWord, word) == DocumentHandler(verb)
    ensures word.CreateWord? ==> RouteSegments(verb, OtherPath, 3, PlainWord, word) == if verb.PUT? || verb.POST? then DocCreate else Unsupported
    ensures word.UpdateWord? ==> RouteSegments(verb, OtherPath, 3, PlainWord, word) == if verb.POST? then DocUpdate else Unsupported
  {
  }

  lemma OneSegmentRoutes(verb: Verb)
    ensures RouteSegments(verb, OtherPath, 1, PlainWord, PlainWord) ==
            match verb
            case PUT => IndexCreate case DELETE => IndexDelete case HEAD => IndexHead case GET => IndexInfo case _ => Unsupported
  {
  }

  lemma WordsArePlain(word: string)
    requires word in {"_doc", "_search", "_count", "_mapping", "_bulk", "_msearch", "_create", "_update"}
    ensures word != [] && '/' !in word && '%' !in word
    ensures WordOf(word) == if word == "_doc" then DocWord else if word == "_search" then SearchWord
                            else if word == "_count" then CountWord else if word == "_mapping" then MappingWord
                            else if word == "_bulk" then BulkWord else if word == "_msearch" then MultiSearchWord
                            else if word == "_create" then CreateWord else UpdateWord
  {
  }

  lemma EndingIs(path: string, front: string, last: string)
    requires path == front + "/" + last && '/' !in last
    ensures EndsWith(path, "/_bulk") <==> last == "_bulk"
    ensures EndsWith(path, "/_msearch") <==> last == "_msearch"
  {
    BulkAndSearch();
    assert "/" + "_bulk" == "/_bulk" && "/" + "_msearch" == "/_msearch";
    if EndsWith(path, "/_bulk") {
      LastIsWord(path, front, last, "_bulk");
    }
    if EndsWith(path, "/_msearch") {
      LastIsWord(path, front, last, "_msearch");
    }
    assert path[|front|..] == "/" + last;
  }

  lemma BulkAndSearch()
    ensures '/' !in "_bulk" && '/' !in "_msearch"
  {
  }

  /** `/index/word/id` reaches the handler of the word and the verb. */
  lemma DocumentEndpoints(decode: Decoder, verb: Verb, index: string, word: string, id: string)
    requires Decodes(decode) && IsName(index) && IsName(id) && word in {"_doc", "_create", "_update"}
    ensures Route(decode, verb, "/" + index + "/" + word + "/" + id) ==
            if word == "_doc" then DocumentHandler(verb)
            else if word == "_create" then (if verb.PUT? || verb.POST? then DocCreate else Unsupported)
            else (if verb.POST? then DocUpdate else Unsupported)
  {
    var path := "/" + index + "/" + word + "/" + id;
    WordsArePlain(word);
    NamesArePlain(index);
    ThreeSegments(decode, path, index, word, id);
    assert path == "/" + index + ("/" + word + "/" + id);
    NameFirst(path, index, "/" + word + "/" + id);
    EndingIs(path, "/" + index + "/" + word, id);
    assert "_bulk"[0] == '_' && "_msearch"[0] == '_';
    hide *;
    PlainRoute(decode, verb, path, [index, word, id]);
    ThreeSegmentRoutes(verb, WordOf(word));
    FirstWords([index, word, id]);
  }

  /** `/index` itself, and `/_aliases`. */
  lemma CatalogEndpoints(decode: Decoder, verb: Verb, index: string)
    requires Decodes(decode) && IsName(index) && index != "healthz" && index != "readyz"
    ensures Route(decode, verb, "/" + index) ==
            match verb
            case PUT => IndexCreate case DELETE => IndexDelete case HEAD => IndexHead case GET => IndexInfo case _ => Unsupported
    ensures Route(decode, POST, "/_aliases") == AliasUpdate
  {
    var path := "/" + index;
    NamesArePlain(index);
    KnownPath(decode, path, index);
    assert path == "/" + index + "";
    NameFirst(path, index, "");
    assert path == [] + "/" + index;
    EndingIs(path, [], index);
    assert path[1..] == index && "/healthz"[1..] == "healthz" && "/readyz"[1..] == "readyz";
    assert FixedPathOf(path).OtherPath?;
    assert "_bulk"[0] == '_' && "_msearch"[0] == '_';
    AliasesRoute(decode);
    hide *;
    PlainRoute(decode, verb, path, [index]);
    OneSegmentRoutes(verb);
    FirstWords([index]);
  }

  lemma AliasesRoute(decode: Decoder)
    requires Decodes(decode)
    ensures Route(decode, POST, "/_aliases") == AliasUpdate
  {
    AliasesPaths();
    hide *;
    KnownPath(decode, "/_aliases", "_aliases");
    EndingIs("/_aliases", [], "_aliases");
    AliasesHandler(decode, "/_aliases");
  }

  lemma AliasesHandler(decode: Decoder, path: string)
    requires FixedPathOf(path).AliasesPath? && Segments(decode, path).Some?
    requires !EndsWith(path, "/_bulk") && !EndsWith(path, "/_msearch")
    ensures Route(decode, POST, path) == AliasUpdate
  {
    hide Segments, EndsWith, WordOf, FixedPathOf;
  }

  lemma AliasesPaths()
    ensures FixedPathOf("/_aliases").AliasesPath?
    ensures "/_aliases" == "/" + "_aliases" == [] + "/" + "_aliases" && '/' !in "_aliases" && '%' !in "_aliases"
    ensures "_aliases" != "_bulk" && "_aliases" != "_msearch"
  {
    assert "_bulk"[1] == 'b' && "_msearch"[1] == 'm' && "_aliases"[1] == 'a';
    assert "/_aliases"[1] == '_' && "/_aliases"[2] == 'a' && "/_cluster/health"[2] == 'c' && "/_qdrant_gateway/compatibility"[2] == 'q';
    assert "/healthz"[1] == 'h' && "/readyz"[1] == 'r' && |"/"| == 1;
  }
}
