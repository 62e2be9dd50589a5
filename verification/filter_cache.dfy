/** Fetching remote filter lists through the disk cache, and building rule sets from what was fetched. */
module FilterCache {
  import opened Text
  import opened Addresses
  import opened RuleSyntax
  import opened RuleSetBuilding

  datatype FilterConfig = FilterConfig(enabled: bool, url: string, id: Option<nat>)

  datatype FetchMode = CacheOnly | Refresh

  datatype FetchError = NoReadableCache | DownloadFailed | CacheNotWritten

  // -------------------------------------------------------------- cache keys

  function Hex(n: nat, width: nat): (s: string)
    ensures |s| == width
  {
    if width == 0 then "" else Hex(n / 16, width - 1) + [Digit(n % 16)]
  }

  /** The file name for a filter: its id in decimal, or 16 hex digits of a hash of its URL. */
  function CacheKey(hash: string -> nat, filter: FilterConfig): string {
    match filter.id
    case Some(id) => Decimal(id) + ".txt"
    case None => Hex(hash(filter.url), 16) + ".txt"
  }

  function KeyOf(hash: string -> nat, filter: FilterConfig): seq<string> {
    if filter.enabled then [CacheKey(hash, filter)] else []
  }

  /** The cache files of the enabled filters, in order. */
  function EnabledKeys(hash: string -> nat, filters: seq<FilterConfig>): seq<string> {
    if filters == [] then []
    else KeyOf(hash, filters[0]) + EnabledKeys(hash, filters[1..])
  }

  function HexValue(text: string): nat {
    if text == "" then 0 else HexValue(text[..|text| - 1]) * 16 + DigitValue(text[|text| - 1])
  }

  function Pow16(n: nat): nat {
    if n == 0 then 1 else 16 * Pow16(n - 1)
  }

  lemma {:induction false} HexRoundTrip(n: nat, width: nat)
    requires n < Pow16(width)
    ensures HexValue(Hex(n, width)) == n
  {
    if width > 0 {
      HexRoundTrip(n / 16, width - 1);
      var front, s := Hex(n / 16, width - 1), Hex(n, width);
      assert s == front + [Digit(n % 16)] && s[..width - 1] == front;
      DigitsRead(n % 16);
    }
  }

  lemma DigitsRead(v: nat)
    requires v < 16
    ensures DigitValue(Digit(v)) == v
  {}

  /** The file of a filter: its id in decimal, or the hash of its URL in 16 hex digits, and `.txt`. */
  lemma KeyReadsBack(hash: string -> nat, filter: FilterConfig)
    ensures var key := CacheKey(hash, filter);
            && EndsWith(key, ".txt")
            && match filter.id
               case Some(id) => DecimalValue(key[..|key| - 4]) == id
               case None => |key| == 20 && (hash(filter.url) < Pow16(16) ==> HexValue(key[..16]) == hash(filter.url))
  {
    hide Hex, HexValue, Decimal, DecimalValue, Pow16;
    var key := CacheKey(hash, filter);
    assert key[|key| - 4..] == ".txt";
    match filter.id
    case Some(id) =>
      assert key[..|key| - 4] == Decimal(id);
      DecimalRoundTrip(id);
    case None =>
      assert key[..16] == Hex(hash(filter.url), 16);
      if hash(filter.url) < Pow16(16) { HexRoundTrip(hash(filter.url), 16); }
  }

  lemma {:induction false} KeysAppend(hash: string -> nat, a: seq<FilterConfig>, b: seq<FilterConfig>)
    ensures EnabledKeys(hash, a + b) == EnabledKeys(hash, a) + EnabledKeys(hash, b)
    decreases a
  {
    hide KeyOf;
    if a == [] {
      assert a + b == b;
    } else {
      assert (a + b)[1..] == a[1..] + b && (a + b)[0] == a[0];
      KeysAppend(hash, a[1..], b);
      assert EnabledKeys(hash, a + b) == KeyOf(hash, a[0]) + EnabledKeys(hash, a[1..] + b);
      assert EnabledKeys(hash, a) == KeyOf(hash, a[0]) + EnabledKeys(hash, a[1..]);
    }
  }

  /** An enabled filter has its key in its place; a disabled one leaves no trace. */
  lemma KeyInPlace(hash: string -> nat, a: seq<FilterConfig>, f: FilterConfig, b: seq<FilterConfig>)
    ensures f.enabled ==>
            EnabledKeys(hash, a + [f] + b) == EnabledKeys(hash, a) + [CacheKey(hash, f)] + EnabledKeys(hash, b)
    ensures !f.enabled ==> EnabledKeys(hash, a + [f] + b) == EnabledKeys(hash, a + b)
  {
    hide CacheKey, EnabledKeys;
    KeysAppend(hash, a + [f], b);
    KeysAppend(hash, a, [f]);
    KeysAppend(hash, a, b);
    OneKey(hash, f);
  }

  lemma OneKey(hash: string -> nat, f: FilterConfig)
    ensures EnabledKeys(hash, [f]) == if f.enabled then [CacheKey(hash, f)] else []
  {
    hide CacheKey;
    assert [f][1..] == [] && EnabledKeys(hash, []) == [];
  }

  /** The keys are those of the enabled filters and no others. */
  lemma {:induction false} KeysOfEnabled(hash: string -> nat, filters: seq<FilterConfig>, key: string)
    ensures key in EnabledKeys(hash, filters) <==>
            exists i :: 0 <= i < |filters| && filters[i].enabled && CacheKey(hash, filters[i]) == key
  {
    hide CacheKey;
    if filters != [] {
      KeysOfEnabled(hash, filters[1..], key);
      assert forall i :: 0 < i < |filters| ==> filters[i] == filters[1..][i - 1];
      assert forall i :: 0 <= i < |filters[1..]| ==> filters[1..][i] == filters[i + 1];
    }
  }

  /** Filters with ids share a file only if they share the id. */
  lemma IdsHaveOwnKeys(hash: string -> nat, a: FilterConfig, b: FilterConfig)
    requires a.id.Some? && b.id.Some?
    ensures CacheKey(hash, a) == CacheKey(hash, b) <==> a.id == b.id
  {
    var x, y := Decimal(a.id.value), Decimal(b.id.value);
    if CacheKey(hash, a) == CacheKey(hash, b) {
      assert |x| == |y| && x == (x + ".txt")[..|x|] == y;
      DecimalRoundTrip(a.id.value);
      DecimalRoundTrip(b.id.value);
    }
  }

  // ----------------------------------------------------------------- fetching

  /** Readable cache files by name. */
  type Files = map<string, string>

  /** How writing the cache file goes; a failed write may leave anything readable or nothing. */
  datatype Write = Written | NotCreated | Broken(left: Option<string>)

  /** What the network and the disk do for one filter. */
  datatype World = World(download: Option<string>, write: Write)

  function AfterWrite(files: Files, key: string, contents: string, write: Write): Files {
    match write
    case Written => files[key := contents]
    case NotCreated => files
    case Broken(Some(left)) => files[key := left]
    case Broken(None) => files - {key}
  }

  function Fetched(files: Files, key: string, mode: FetchMode, world: World): (Files, Result<string, FetchError>) {
    if mode == CacheOnly then
      if key in files then (files, Ok(files[key])) else (files, Err(NoReadableCache))
    else
      match world.download
      case Some(contents) =>
        if key in files && files[key] == contents then (files, Ok(contents))
        else (AfterWrite(files, key, contents, world.write),
              if world.write.Written? then Ok(contents) else Err(CacheNotWritten))
      case None =>
        if key in files then (files, Ok(files[key])) else (files, Err(DownloadFailed))
  }

  class Cache {
    var files: Files

    constructor (files: Files)
      ensures this.files == files
    {
      this.files := files;
    }

    method Persist(key: string, contents: string, write: Write) returns (r: Result<(), FetchError>)
      modifies this
      ensures if key in old(files) && old(files)[key] == contents then files == old(files) && r.Ok?
              else files == AfterWrite(old(files), key, contents, write) && (r.Ok? <==> write.Written?)
      ensures r.Err? ==> r.error == CacheNotWritten
    {
      if key in files && files[key] == contents {
        return Ok(());
      }
      match write {
        case Written =>
          files := files[key := contents];
          return Ok(());
        case NotCreated =>
          return Err(CacheNotWritten);
        case Broken(left) =>
          files := if left.Some? then files[key := left.value] else files - {key};
          return Err(CacheNotWritten);
      }
    }

    method FetchFilter(key: string, mode: FetchMode, world: World) returns (r: Result<string, FetchError>)
      modifies this
      ensures (files, r) == Fetched(old(files), key, mode, world)
    {
      if mode == CacheOnly {
        return if key in files then Ok(files[key]) else Err(NoReadableCache);
      }
      match world.download {
        case Some(contents) =>
          var persisted := Persist(key, contents, world.write);
          return if persisted.Ok? then Ok(contents) else Err(persisted.error);
        case None =>
          return if key in files then Ok(files[key]) else Err(DownloadFailed);
      }
    }
  }

  /** A failed download leaves the cache as it was, and without a refresh nothing is ever written. */
  lemma FetchKeepsCache(files: Files, key: string, mode: FetchMode, world: World)
    requires mode == CacheOnly || world.download.None?
    ensures Fetched(files, key, mode, world).0 == files
    ensures Fetched(files, key, mode, world).1 ==
            if key in files then Ok(files[key]) else Err(if mode == CacheOnly then NoReadableCache else DownloadFailed)
  {}

  /** A download that is written down is what the fetch returns and what the file then holds; other files stay. */
  lemma FetchWritesItsFile(files: Files, key: string, world: World, other: string)
    requires world.download.Some? && world.write.Written?
    ensures var (after, r) := Fetched(files, key, Refresh, world);
            && r == Ok(world.download.value) && key in after && after[key] == world.download.value
            && (other != key ==>
                  (other in after <==> other in files) && (other in files ==> after[other] == files[other]))
  {}

  /** When a fetch fails: nothing readable in cache-only mode or after a failed download, or nothing written. */
  lemma FetchFailsExactly(files: Files, key: string, mode: FetchMode, world: World)
    ensures Fetched(files, key, mode, world).1.Err? <==>
            if mode == CacheOnly || world.download.None? then key !in files
            else !(key in files && files[key] == world.download.value) && !world.write.Written?
    ensures Fetched(files, key, mode, world).1.Ok? ==>
            Fetched(files, key, mode, world).1.value ==
            if mode == CacheOnly || world.download.None? then files[key] else world.download.value
  {}

  // ---------------------------------------------------------- a whole build

  /** All enabled filters in turn; a refresh stops at the first failure, a cache-only pass skips it. */
  function FetchAll(files: Files, keys: seq<string>, mode: FetchMode, worlds: seq<World>)
    : (Files, Result<seq<string>, FetchError>)
    requires |worlds| == |keys|
  {
    if keys == [] then (files, Ok([]))
    else
      var n := |keys| - 1;
      var (before, contents) := FetchAll(files, keys[..n], mode, worlds[..n]);
      if contents.Err? then (before, contents)
      else
        var (after, fetched) := Fetched(before, keys[n], mode, worlds[n]);
        match fetched
        case Ok(text) => (after, Ok(contents.value + [text]))
        case Err(e) => (after, if mode == Refresh then Err(e) else contents)
  }

  function AllLines(contents: seq<string>): seq<Line> {
    if contents == [] then []
    else AllLines(contents[..|contents| - 1]) + RuleSetBuilding.Lines(contents[|contents| - 1], RemoteFilter)
  }

  function UserLines(rules: seq<string>): (lines: seq<Line>)
    ensures |lines| == |rules| && forall i :: 0 <= i < |lines| ==> lines[i] == Line(rules[i], UserRule)
  {
    seq(|rules|, i requires 0 <= i < |rules| => Line(rules[i], UserRule))
  }

  datatype BuildError = Fetching(fetchError: FetchError) | Parsing(syntaxError: SyntaxError)

  /** One filter more, on top of a build that has gone well so far. */
  ghost function BuildStep(read: Classifier, files: Files, g: Gathered, key: string, mode: FetchMode, world: World)
    : (Files, Result<Gathered, BuildError>)
  {
    var (after, fetched) := Fetched(files, key, mode, world);
    match fetched
    case Err(e) => (after, if mode == Refresh then Err(Fetching(e)) else Ok(g))
    case Ok(text) => (after, Parsed(Feed(read, RuleSetBuilding.Lines(text, RemoteFilter), g)))
  }

  ghost function Parsed(fed: Result<Gathered, SyntaxError>): Result<Gathered, BuildError> {
    match fed
    case Err(e) => Err(Parsing(e))
    case Ok(g) => Ok(g)
  }

  /** Each enabled filter is fetched and parsed before the next; the first error stops the build. */
  ghost function BuildFilters(read: Classifier, files: Files, keys: seq<string>, mode: FetchMode, worlds: seq<World>)
    : (Files, Result<Gathered, BuildError>)
    requires |worlds| == |keys|
  {
    if keys == [] then (files, Ok(NOTHING_GATHERED))
    else
      var n := |keys| - 1;
      var (before, built) := BuildFilters(read, files, keys[..n], mode, worlds[..n]);
      if built.Err? then (before, built) else BuildStep(read, before, built.value, keys[n], mode, worlds[n])
  }

  /** Then come the user's rules and the badfilters. */
  ghost function BuildResult(read: Classifier, files: Files, keys: seq<string>, mode: FetchMode, worlds: seq<World>,
                             userRules: seq<string>): (Files, Result<Gathered, BuildError>)
    requires |worlds| == |keys|
  {
    var (after, built) := BuildFilters(read, files, keys, mode, worlds);
    match built
    case Err(e) => (after, Err(e))
    case Ok(g) => (after, Completed(Feed(read, UserLines(userRules), g)))
  }

  ghost function Completed(fed: Result<Gathered, SyntaxError>): Result<Gathered, BuildError> {
    match fed
    case Err(e) => Err(Parsing(e))
    case Ok(g) => Ok(WithoutDisabled(g))
  }

  ghost predicate Holds(rules: RuleSets, disabled: set<string>, r: Result<(), BuildError>,
                        wanted: Result<Gathered, BuildError>)
    reads rules
  {
    match wanted
    case Err(e) => r == Err(e)
    case Ok(g) => r == Ok(()) && rules.Contents(disabled) == g
  }

  /** Fetch and parse the enabled filters in order, then the user's rules, then the badfilters. */
  method BuildWithFetchMode(lib: Library, cache: Cache, hash: string -> nat, filters: seq<FilterConfig>,
                            mode: FetchMode, worlds: seq<World>, userRules: seq<string>)
    returns (rules: RuleSets, disabled: set<string>, r: Result<(), BuildError>)
    requires |worlds| == |EnabledKeys(hash, filters)|
    modifies cache
    ensures fresh(rules)
    ensures var (files, built) :=
              BuildResult(Reader(lib), old(cache.files), EnabledKeys(hash, filters), mode, worlds, userRules);
            cache.files == files && Holds(rules, disabled, r, built)
  {
    var keys := EnabledKeys(hash, filters);
    ghost var files := cache.files;
    rules, disabled, r := BuildFromFilters(lib, cache, keys, mode, worlds);
    if r.Err? {
      return;
    }
    var parsed;
    parsed, disabled := rules.ParseRuleLines(lib, UserLines(userRules), disabled);
    if parsed.Err? {
      r := Err(Parsing(parsed.error));
      return;
    }
    rules.ApplyBadfilters(disabled);
  }

  method BuildFromFilters(lib: Library, cache: Cache, keys: seq<string>, mode: FetchMode, worlds: seq<World>)
    returns (rules: RuleSets, disabled: set<string>, r: Result<(), BuildError>)
    requires |worlds| == |keys|
    modifies cache
    ensures fresh(rules)
    ensures var (files, built) := BuildFilters(Reader(lib), old(cache.files), keys, mode, worlds);
            cache.files == files && Holds(rules, disabled, r, built)
  {
    rules := new RuleSets();
    disabled, r := {}, Ok(());
    ghost var files := cache.files;
    for i := 0 to |keys|
      invariant fresh(rules) && r.Ok?
      invariant BuildFilters(Reader(lib), files, keys[..i], mode, worlds[..i])
                == (cache.files, Ok(rules.Contents(disabled)))
    {
      BuildFiltersStep(Reader(lib), files, keys, mode, worlds, i);
      var fetched := cache.FetchFilter(keys[i], mode, worlds[i]);
      match fetched {
        case Err(e) =>
          if mode == Refresh {
            BuildFailureStays(Reader(lib), files, keys, mode, worlds, i + 1);
            r := Err(Fetching(e));
            return;
          }
        case Ok(text) =>
          var parsed;
          parsed, disabled := rules.ParseRuleLines(lib, RuleSetBuilding.Lines(text, RemoteFilter), disabled);
          if parsed.Err? {
            BuildFailureStays(Reader(lib), files, keys, mode, worlds, i + 1);
            r := Err(Parsing(parsed.error));
            return;
          }
      }
    }
    assert keys[..|keys|] == keys && worlds[..|keys|] == worlds;
  }

  lemma BuildFiltersStep(read: Classifier, files: Files, keys: seq<string>, mode: FetchMode, worlds: seq<World>, i: nat)
    requires |worlds| == |keys| && i < |keys|
    ensures BuildFilters(read, files, keys[..i + 1], mode, worlds[..i + 1]) ==
            var (before, built) := BuildFilters(read, files, keys[..i], mode, worlds[..i]);
            if built.Err? then (before, built) else BuildStep(read, before, built.value, keys[i], mode, worlds[i])
  {
    assert keys[..i + 1][..i] == keys[..i] && worlds[..i + 1][..i] == worlds[..i];
  }

  lemma {:induction false} BuildFailureStays(read: Classifier, files: Files, keys: seq<string>, mode: FetchMode,
                                             worlds: seq<World>, i: nat)
    requires |worlds| == |keys| && i <= |keys|
    requires BuildFilters(read, files, keys[..i], mode, worlds[..i]).1.Err?
    ensures BuildFilters(read, files, keys, mode, worlds) == BuildFilters(read, files, keys[..i], mode, worlds[..i])
    decreases |keys| - i
  {
    if i < |keys| {
      BuildFiltersStep(read, files, keys, mode, worlds, i);
      BuildFailureStays(read, files, keys, mode, worlds, i + 1);
    } else {
      assert keys[..i] == keys && worlds[..i] == worlds;
    }
  }

  // ------------------------------------------- fetching first, parsing later

  ghost function FedAll(read: Classifier, contents: seq<string>): Result<Gathered, SyntaxError> {
    Feed(read, AllLines(contents), NOTHING_GATHERED)
  }

  lemma FedOneMore(read: Classifier, contents: seq<string>, text: string)
    ensures FedAll(read, contents + [text]) ==
            if FedAll(read, contents).Err? then FedAll(read, contents)
            else Feed(read, RuleSetBuilding.Lines(text, RemoteFilter), FedAll(read, contents).value)
  {
    assert (contents + [text])[..|contents|] == contents;
    FeedAppend(read, AllLines(contents), RuleSetBuilding.Lines(text, RemoteFilter), NOTHING_GATHERED);
  }

  /** The first `k` filters were fetched, and what they hold does not parse. */
  ghost predicate StopsAt(read: Classifier, files: Files, keys: seq<string>, mode: FetchMode, worlds: seq<World>,
                          k: nat, after: Files, error: SyntaxError)
    requires |worlds| == |keys| && k <= |keys|
  {
    var (stopped, contents) := FetchAll(files, keys[..k], mode, worlds[..k]);
    contents.Ok? && after == stopped && FedAll(read, contents.value) == Err(error)
  }

  /**
   * Fetching and parsing in turns comes to fetching everything and then parsing everything. The
   * cache after an error: of a fetch, what the fetches up to it left; of a line, what the fetches up
   * to the filter of that line left.
   */
  lemma {:induction false} FiltersInPhases(read: Classifier, files: Files, keys: seq<string>, mode: FetchMode,
                                           worlds: seq<World>)
    requires |worlds| == |keys|
    ensures var (after, built) := BuildFilters(read, files, keys, mode, worlds);
            var (fetchedFiles, contents) := FetchAll(files, keys, mode, worlds);
            match built
            case Ok(g) => contents.Ok? && after == fetchedFiles && FedAll(read, contents.value) == Ok(g)
            case Err(Fetching(e)) => contents == Err(e) && after == fetchedFiles
            case Err(Parsing(e)) =>
              && (contents.Ok? ==> FedAll(read, contents.value) == Err(e))
              && exists k :: 0 <= k <= |keys| && StopsAt(read, files, keys, mode, worlds, k, after, e)
  {
    if keys != [] {
      var n := |keys| - 1;
      FiltersInPhases(read, files, keys[..n], mode, worlds[..n]);
      var (before, built) := BuildFilters(read, files, keys[..n], mode, worlds[..n]);
      var contents := FetchAll(files, keys[..n], mode, worlds[..n]).1;
      if contents.Ok? {
        var fetched := Fetched(FetchAll(files, keys[..n], mode, worlds[..n]).0, keys[n], mode, worlds[n]).1;
        if fetched.Ok? { FedOneMore(read, contents.value, fetched.value); }
      }
      var (after, result) := BuildFilters(read, files, keys, mode, worlds);
      if built.Err? && built.error.Parsing? {
        var e := built.error.syntaxError;
        var k :| 0 <= k <= n && StopsAt(read, files, keys[..n], mode, worlds[..n], k, before, e);
        StopsAtLonger(read, files, keys, mode, worlds, n, k, before, e);
      } else if result.Err? && result.error.Parsing? {
        assert keys[..|keys|] == keys && worlds[..|keys|] == worlds;
        assert StopsAt(read, files, keys, mode, worlds, |keys|, after, result.error.syntaxError);
      }
    }
  }

  /** Where the shorter build stops, the longer one does. */
  lemma StopsAtLonger(read: Classifier, files: Files, keys: seq<string>, mode: FetchMode, worlds: seq<World>,
                      n: nat, k: nat, after: Files, error: SyntaxError)
    requires |worlds| == |keys| && k <= n <= |keys|
    requires StopsAt(read, files, keys[..n], mode, worlds[..n], k, after, error)
    ensures StopsAt(read, files, keys, mode, worlds, k, after, error)
  {
    assert keys[..n][..k] == keys[..k] && worlds[..n][..k] == worlds[..k];
  }

  /** A whole build gives the rule sets of all the fetched lines and the user's, or the first error. */
  lemma BuildInPhases(lib: Library, files: Files, keys: seq<string>, mode: FetchMode, worlds: seq<World>,
                      userRules: seq<string>)
    requires |worlds| == |keys|
    ensures var (after, built) := BuildResult(Reader(lib), files, keys, mode, worlds, userRules);
            var (fetchedFiles, contents) := FetchAll(files, keys, mode, worlds);
            && (built.Ok? <==> contents.Ok? && Build(lib, AllLines(contents.value) + UserLines(userRules)).Ok?)
            && (built.Ok? ==> after == fetchedFiles
                              && Build(lib, AllLines(contents.value) + UserLines(userRules)) == Ok(built.value))
            && (built.Err? && built.error.Fetching? ==>
                  contents == Err(built.error.fetchError) && after == fetchedFiles)
  {
    PhasesOf(Reader(lib), files, keys, mode, worlds, userRules);
  }

  lemma PhasesOf(read: Classifier, files: Files, keys: seq<string>, mode: FetchMode, worlds: seq<World>,
                 userRules: seq<string>)
    requires |worlds| == |keys|
    ensures var (after, built) := BuildResult(read, files, keys, mode, worlds, userRules);
            var (fetchedFiles, contents) := FetchAll(files, keys, mode, worlds);
            && (built.Ok? <==> contents.Ok? && BuildFrom(read, AllLines(contents.value) + UserLines(userRules)).Ok?)
            && (built.Ok? ==> after == fetchedFiles
                              && BuildFrom(read, AllLines(contents.value) + UserLines(userRules)) == Ok(built.value))
            && (built.Err? && built.error.Fetching? ==>
                  contents == Err(built.error.fetchError) && after == fetchedFiles)
  {
    FiltersInPhases(read, files, keys, mode, worlds);
    var contents := FetchAll(files, keys, mode, worlds).1;
    if contents.Ok? { FeedAppend(read, AllLines(contents.value), UserLines(userRules), NOTHING_GATHERED); }
  }

  /** Without a refresh nothing is ever written. */
  lemma CacheOnlyBuildsKeep(read: Classifier, files: Files, keys: seq<string>, worlds: seq<World>,
                            userRules: seq<string>)
    requires |worlds| == |keys|
    ensures BuildResult(read, files, keys, CacheOnly, worlds, userRules).0 == files
  {
    CacheOnlyFiltersKeep(read, files, keys, worlds);
  }

  lemma {:induction false} CacheOnlyFiltersKeep(read: Classifier, files: Files, keys: seq<string>, worlds: seq<World>)
    requires |worlds| == |keys|
    ensures BuildFilters(read, files, keys, CacheOnly, worlds).0 == files
  {
    if keys != [] { CacheOnlyFiltersKeep(read, files, keys[..|keys| - 1], worlds[..|keys| - 1]); }
  }

  // ------------------------------------------------- agreement with the cache

  predicate HasUncached(files: Files, keys: seq<string>) {
    exists i :: 0 <= i < |keys| && keys[i] !in files
  }

  /** Filters that share a cache file were given the same contents. */
  predicate SharersAgree(keys: seq<string>, contents: seq<string>)
    requires |keys| == |contents|
  {
    forall i, j :: 0 <= i < j < |keys| && keys[i] == keys[j] ==> contents[i] == contents[j]
  }

  /** The filters that share a cache file got the same contents in a refresh. */
  ghost predicate ContentsAgree(files: Files, keys: seq<string>, worlds: seq<World>)
    requires |worlds| == |keys|
  {
    var contents := FetchAll(files, keys, Refresh, worlds).1;
    contents.Ok? && |contents.value| == |keys| && SharersAgree(keys, contents.value)
  }

  lemma {:induction false} RefreshFillsCache(files: Files, keys: seq<string>, worlds: seq<World>)
    requires |worlds| == |keys|
    ensures var (after, contents) := FetchAll(files, keys, Refresh, worlds);
            contents.Ok? ==>
              && |contents.value| == |keys|
              && (forall i :: 0 <= i < |keys| ==> keys[i] in after)
              && (forall i :: 0 <= i < |keys| && keys[i] !in keys[i + 1..] ==> after[keys[i]] == contents.value[i])
  {
    if keys != [] {
      var n := |keys| - 1;
      RefreshFillsCache(files, keys[..n], worlds[..n]);
      var (before, got) := FetchAll(files, keys[..n], Refresh, worlds[..n]);
      var (after, contents) := FetchAll(files, keys, Refresh, worlds);
      if contents.Ok? {
        forall i | 0 <= i < |keys| && keys[i] !in keys[i + 1..]
          ensures after[keys[i]] == contents.value[i]
        {
          if i < n {
            assert keys[i + 1..] == keys[..n][i + 1..] + [keys[n]];
            assert keys[i] != keys[n] && keys[..n][i] == keys[i];
          }
        }
        forall i | 0 <= i < |keys| ensures keys[i] in after {
          if i < n { assert keys[..n][i] == keys[i]; }
        }
      }
    }
  }

  lemma {:induction false} CacheOnlyReadsAll(files: Files, keys: seq<string>, worlds: seq<World>)
    requires |worlds| == |keys| && !HasUncached(files, keys)
    ensures var (after, contents) := FetchAll(files, keys, CacheOnly, worlds);
            && after == files && contents.Ok? && |contents.value| == |keys|
            && forall i :: 0 <= i < |keys| ==> contents.value[i] == files[keys[i]]
  {
    if keys != [] {
      var n := |keys| - 1;
      forall i | 0 <= i < n ensures keys[..n][i] in files { assert keys[..n][i] == keys[i]; }
      CacheOnlyReadsAll(files, keys[..n], worlds[..n]);
    }
  }

  function LastUse(keys: seq<string>, i: nat): (j: nat)
    requires i < |keys|
    ensures i <= j < |keys| && keys[j] == keys[i] && keys[j] !in keys[j + 1..]
    decreases |keys| - i
  {
    if keys[i] !in keys[i + 1..] then i
    else
      var d :| 0 <= d < |keys| - i - 1 && keys[i + 1..][d] == keys[i];
      LastUse(keys, i + 1 + d)
  }

  /**
   * After a successful refresh, with the disk left alone, no enabled filter is uncached, and reading
   * the cache gives the refreshed contents back if and only if filters sharing a file agreed on them.
   */
  lemma CacheAgreesExactly(files: Files, keys: seq<string>, worlds: seq<World>, later: seq<World>)
    requires |worlds| == |keys| == |later|
    requires FetchAll(files, keys, Refresh, worlds).1.Ok?
    ensures var (after, contents) := FetchAll(files, keys, Refresh, worlds);
            && !HasUncached(after, keys)
            && |contents.value| == |keys|
            && (FetchAll(after, keys, CacheOnly, later).1 == contents <==> SharersAgree(keys, contents.value))
  {
    var (after, contents) := FetchAll(files, keys, Refresh, worlds);
    RefreshFillsCache(files, keys, worlds);
    CacheOnlyReadsAll(after, keys, later);
    var read := FetchAll(after, keys, CacheOnly, later).1.value;
    if SharersAgree(keys, contents.value) {
      forall i | 0 <= i < |keys| ensures read[i] == contents.value[i] {
        var j := LastUse(keys, i);
        assert after[keys[j]] == contents.value[j];
      }
      assert read == contents.value;
    }
  }

  lemma RefreshLeavesNothingUncached(read: Classifier, files: Files, keys: seq<string>, worlds: seq<World>,
                                     userRules: seq<string>)
    requires |worlds| == |keys| && BuildResult(read, files, keys, Refresh, worlds, userRules).1.Ok?
    ensures !HasUncached(BuildResult(read, files, keys, Refresh, worlds, userRules).0, keys)
  {
    PhasesOf(read, files, keys, Refresh, worlds, userRules);
    CacheAgreesExactly(files, keys, worlds, worlds);
  }

  /**
   * A cache-only build after a successful refresh build gives the very same rule sets, if filters that
   * share a cache file, if any, were given the same contents.
   */
  lemma CacheOnlyRebuilds(read: Classifier, files: Files, keys: seq<string>, worlds: seq<World>, later: seq<World>,
                          userRules: seq<string>)
    requires |worlds| == |keys| == |later|
    requires BuildResult(read, files, keys, Refresh, worlds, userRules).1.Ok?
    requires ContentsAgree(files, keys, worlds)
    ensures var (after, built) := BuildResult(read, files, keys, Refresh, worlds, userRules);
            BuildResult(read, after, keys, CacheOnly, later, userRules) == (after, built)
  {
    var after := BuildResult(read, files, keys, Refresh, worlds, userRules).0;
    PhasesOf(read, files, keys, Refresh, worlds, userRules);
    CacheAgreesExactly(files, keys, worlds, later);
    PhasesOf(read, after, keys, CacheOnly, later, userRules);
    CacheOnlyBuildsKeep(read, after, keys, later, userRules);
  }

  // ------------------------------------------------------ in terms of filters

  /** A build from these filters; `worlds` are for the enabled ones. */
  ghost function BuildOf(read: Classifier, files: Files, hash: string -> nat, filters: seq<FilterConfig>,
                         mode: FetchMode, worlds: seq<World>, userRules: seq<string>)
    : (Files, Result<Gathered, BuildError>)
    requires |worlds| == |EnabledKeys(hash, filters)|
  {
    BuildResult(read, files, EnabledKeys(hash, filters), mode, worlds, userRules)
  }

  /** Putting a disabled filter in anywhere changes neither the rule sets, nor the error, nor the cache. */
  lemma DisabledFiltersDoNotMatter(read: Classifier, files: Files, hash: string -> nat,
                                   a: seq<FilterConfig>, f: FilterConfig, b: seq<FilterConfig>,
                                   mode: FetchMode, worlds: seq<World>, userRules: seq<string>)
    requires !f.enabled && |worlds| == |EnabledKeys(hash, a + b)|
    ensures |worlds| == |EnabledKeys(hash, a + [f] + b)|
    ensures BuildOf(read, files, hash, a + [f] + b, mode, worlds, userRules) ==
            BuildOf(read, files, hash, a + b, mode, worlds, userRules)
  {
    KeyInPlace(hash, a, f, b);
  }

  /** Some enabled filter has no readable cache file. */
  ghost predicate HasUncachedFilters(files: Files, hash: string -> nat, filters: seq<FilterConfig>) {
    exists i :: 0 <= i < |filters| && filters[i].enabled && CacheKey(hash, filters[i]) !in files
  }

  lemma UncachedFilters(files: Files, hash: string -> nat, filters: seq<FilterConfig>)
    ensures HasUncached(files, EnabledKeys(hash, filters)) <==> HasUncachedFilters(files, hash, filters)
  {
    hide CacheKey, EnabledKeys;
    var keys := EnabledKeys(hash, filters);
    if i :| 0 <= i < |keys| && keys[i] !in files { KeysOfEnabled(hash, filters, keys[i]); }
    if i :| 0 <= i < |filters| && filters[i].enabled && CacheKey(hash, filters[i]) !in files {
      var key := CacheKey(hash, filters[i]);
      KeysOfEnabled(hash, filters, key);
      var k :| 0 <= k < |keys| && keys[k] == key;
    }
  }

  /** After a successful refresh build every enabled filter is cached. */
  lemma RefreshCachesFilters(read: Classifier, files: Files, hash: string -> nat, filters: seq<FilterConfig>,
                             worlds: seq<World>, userRules: seq<string>)
    requires |worlds| == |EnabledKeys(hash, filters)|
    requires BuildOf(read, files, hash, filters, Refresh, worlds, userRules).1.Ok?
    ensures !HasUncachedFilters(BuildOf(read, files, hash, filters, Refresh, worlds, userRules).0, hash, filters)
  {
    hide BuildResult, EnabledKeys;
    RefreshLeavesNothingUncached(read, files, EnabledKeys(hash, filters), worlds, userRules);
    UncachedFilters(BuildOf(read, files, hash, filters, Refresh, worlds, userRules).0, hash, filters);
  }

  /** Enabled filters have ids, and no two the same. */
  ghost predicate OwnIds(filters: seq<FilterConfig>) {
    && (forall i :: 0 <= i < |filters| && filters[i].enabled ==> filters[i].id.Some?)
    && (forall i, j :: 0 <= i < j < |filters| && filters[i].enabled && filters[j].enabled ==>
          filters[i].id != filters[j].id)
  }

  lemma {:induction false} OwnKeys(hash: string -> nat, filters: seq<FilterConfig>)
    requires OwnIds(filters)
    ensures var keys := EnabledKeys(hash, filters); forall i, j :: 0 <= i < j < |keys| ==> keys[i] != keys[j]
  {
    hide CacheKey;
    if filters != [] {
      var rest := filters[1..];
      assert forall i :: 0 <= i < |rest| ==> rest[i] == filters[i + 1];
      OwnKeys(hash, rest);
      if filters[0].enabled {
        var key := CacheKey(hash, filters[0]);
        if key in EnabledKeys(hash, rest) {
          KeysOfEnabled(hash, rest, key);
          var i :| 0 <= i < |rest| && rest[i].enabled && CacheKey(hash, rest[i]) == key;
          IdsHaveOwnKeys(hash, filters[0], rest[i]);
        }
        var others := EnabledKeys(hash, rest);
        assert forall j :: 0 <= j < |others| ==> others[j] in others;
        assert EnabledKeys(hash, filters) == [key] + others;
      } else {
        assert EnabledKeys(hash, filters) == EnabledKeys(hash, rest);
      }
    }
  }

  /** With ids of their own, a cache-only build after a successful refresh build repeats it. */
  lemma CacheOnlyRebuildsFilters(read: Classifier, files: Files, hash: string -> nat, filters: seq<FilterConfig>,
                                 worlds: seq<World>, later: seq<World>, userRules: seq<string>)
    requires OwnIds(filters) && |worlds| == |EnabledKeys(hash, filters)| == |later|
    requires BuildOf(read, files, hash, filters, Refresh, worlds, userRules).1.Ok?
    ensures var (after, built) := BuildOf(read, files, hash, filters, Refresh, worlds, userRules);
            BuildOf(read, after, hash, filters, CacheOnly, later, userRules) == (after, built)
  {
    hide BuildResult, EnabledKeys, OwnIds, FetchAll;
    var keys := EnabledKeys(hash, filters);
    OwnKeys(hash, filters);
    FetchedAll(read, files, keys, worlds, userRules);
    CacheOnlyRebuilds(read, files, keys, worlds, later, userRules);
  }

  lemma FetchedAll(read: Classifier, files: Files, keys: seq<string>, worlds: seq<World>, userRules: seq<string>)
    requires |worlds| == |keys| && BuildResult(read, files, keys, Refresh, worlds, userRules).1.Ok?
    requires forall i, j :: 0 <= i < j < |keys| ==> keys[i] != keys[j]
    ensures ContentsAgree(files, keys, worlds)
  {
    hide BuildResult;
    PhasesOf(read, files, keys, Refresh, worlds, userRules);
    RefreshFillsCache(files, keys, worlds);
  }
}
