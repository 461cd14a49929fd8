/** The request path of `main.py`: the cache age and expiry check, the two
    downloads that refresh or reuse their cache file, `district_strip` and
    `find_municipality`. The clock is the parameter `now`, in whole seconds,
    read once per request. */
module MainPipeline {
  import opened Json
  import opened Store
  import Table
  import District

  /** The default threshold of `cache_expired`: one hour. */
  const DistrictTtl: int := 3600
  /** The threshold `download_district_population` passes. */
  const PopulationTtl: int := 86400
  /** The age `cache_age` reports for an empty or missing file. */
  const UnknownAge: int := 3800

  /** `cache_age(path)`: an empty file, or one `os.stat` cannot see, is
      3800 seconds old; otherwise the `seconds` field of `now - mtime`,
      which drops whole days. */
  function Age(files: map<string, File>, path: string, now: int): (a: int)
    ensures 0 <= a < Day
  {
    if path !in files || files[path].content.Empty? then UnknownAge
    else (now - files[path].mtime) % Day
  }

  /** The age of a non-empty file is the time since its modification with
      the whole days taken off, including a file modified in the future. */
  lemma AgeIsSeconds(files: map<string, File>, path: string, now: int, days: int, seconds: int)
    requires path in files && !files[path].content.Empty?
    requires 0 <= seconds < Day && now - files[path].mtime == days * Day + seconds
    ensures Age(files, path, now) == seconds
  {
    var t := now - files[path].mtime;
    assert t % Day == seconds by {
      assert (days * Day + seconds) % Day == seconds;
    }
  }

  /** What `cache_expired(path, ttl)` returns. */
  predicate Expired(files: map<string, File>, path: string, now: int, ttl: int)
  {
    path !in files || Age(files, path, now) > ttl
  }

  /** The cache files `cache_expired(path, ttl)` leaves behind. */
  function Kept(files: map<string, File>, path: string, now: int, ttl: int): map<string, File>
  {
    if path in files && Age(files, path, now) > ttl then files - {path} else files
  }

  /** After the check the file is gone exactly when it was reported
      expired, and no other file is touched. */
  lemma KeptIff(files: map<string, File>, path: string, now: int, ttl: int)
    ensures path !in Kept(files, path, now, ttl) <==> Expired(files, path, now, ttl)
    ensures forall q :: q != path ==> (q in Kept(files, path, now, ttl) <==> q in files)
    ensures forall q :: q in Kept(files, path, now, ttl) ==> Kept(files, path, now, ttl)[q] == files[q]
  {
  }

  /** `cache_expired(path, ttl)`: a missing file is expired and nothing is
      removed; an existing one is expired, and removed, when its age is
      strictly above `ttl`. */
  method CacheExpired(fs: FileSystem, path: string, now: int, ttl: int) returns (expired: bool)
    modifies fs
    ensures expired == Expired(old(fs.files), path, now, ttl)
    ensures fs.files == Kept(old(fs.files), path, now, ttl)
    ensures fs.dirs == old(fs.dirs)
  {
    if path !in fs.files {
      return true;
    }
    var validAge := Age(fs.files, path, now);
    expired := validAge > ttl;
    if expired && path in fs.files {
      fs.Remove(path);
    }
  }

  /** `if cache_expired(path, ttl): cache_get(url, path, ftype) else:
      cache_load(path)`. */
  function Refresh(files: map<string, File>, path: string, now: int, ttl: int,
                   up: Upstream, url: string, ftype: FileType): (o: Outcome<Json>)
    ensures SameExcept(files, o.files, {path})
    ensures o.result.Ok? ==> Load(o.files, path) == o.result
  {
    var kept := Kept(files, path, now, ttl);
    if Expired(files, path, now, ttl) then
      match Fetched(up, url, ftype)
      case Err(e) => Outcome(Err(e), kept)
      case Ok(d) => Outcome(Ok(d), kept[path := File(now, Data(d))])
    else Outcome(Load(kept, path), kept)
  }

  /** An expired cache is fetched anew: on success the file holds the new
      document, stamped `now`, and reading it back gives the result; on
      failure the file stays removed. A cache that is not expired is read
      and nothing changes. */
  lemma RefreshOutcome(files: map<string, File>, path: string, now: int, ttl: int,
                       up: Upstream, url: string, ftype: FileType)
    ensures var o := Refresh(files, path, now, ttl, up, url, ftype);
      Expired(files, path, now, ttl) ==>
        && o.result == Fetched(up, url, ftype)
        && (o.result.Ok? ==> path in o.files && o.files[path] == File(now, Data(o.result.value))
                             && Load(o.files, path) == o.result)
        && (o.result.Err? ==> path !in o.files)
    ensures var o := Refresh(files, path, now, ttl, up, url, ftype);
      !Expired(files, path, now, ttl) ==> o.files == files && o.result == Load(files, path)
  {
    KeptIff(files, path, now, ttl);
  }

  /** `download_district_population(lang)`: refresh the population file
      with threshold 86400, then `data[lang]`. */
  function Population(files: map<string, File>, root: string, now: int, up: Upstream, lang: string): (o: Outcome<Json>)
    ensures SameExcept(files, o.files, {ContentPath(root, PopulationName)})
  {
    var o := Refresh(files, ContentPath(root, PopulationName), now, PopulationTtl, up, PopulationUrl, WikipediaPage);
    match o.result
    case Err(e) => Outcome(Err(e), o.files)
    case Ok(d) => Outcome(Subscript(d, lang), o.files)
  }

  /** `download_districts(lang)`: refresh the case counts with the default
      threshold, then `district_strip`, which refreshes the population
      before it navigates the document. */
  function Districts(files: map<string, File>, root: string, now: int, up: Upstream, lang: string)
    : (o: Outcome<map<string, District.Record>>)
    ensures SameExcept(files, o.files, {ContentPath(root, DistrictsName(lang)), ContentPath(root, PopulationName)})
  {
    var o := Refresh(files, ContentPath(root, DistrictsName(lang)), now, DistrictTtl, up, DistrictsUrl(lang), JsonFile);
    match o.result
    case Err(e) => Outcome(Err(e), o.files)
    case Ok(data) =>
      var p := Population(o.files, root, now, up, lang);
      match p.result
      case Err(e) => Outcome(Err(e), p.files)
      case Ok(population) => Outcome(District.Join(data, population), p.files)
  }

  /** `find_municipality(municipality)`: the Swedish records, filtered. */
  function FindIn(files: map<string, File>, root: string, now: int, up: Upstream, municipality: string)
    : (o: Outcome<map<string, District.Record>>)
    ensures SameExcept(files, o.files, {ContentPath(root, DistrictsName("sv")), ContentPath(root, PopulationName)})
  {
    var o := Districts(files, root, now, up, "sv");
    match o.result
    case Err(e) => Outcome(Err(e), o.files)
    case Ok(titles) => Outcome(Ok(District.Find(titles, municipality)), o.files)
  }

  /** Every record `find_municipality` returns is named after the
      title-cased query. */
  lemma FoundByTitle(files: map<string, File>, root: string, now: int, up: Upstream, municipality: string)
    requires FindIn(files, root, now, up, municipality).result.Ok?
    ensures var found := FindIn(files, root, now, up, municipality).result.value;
      forall k :: k in found ==> found[k].name == Str(PyStrings.Title(municipality))
  {
  }

  // ---------------------------------------------------------------------
  // The imperative request path
  // ---------------------------------------------------------------------

  /** The branch both downloads share: fetch when `cache_expired` says
      so, read the file otherwise. */
  method RefreshFile(fs: FileSystem, up: Upstream, path: string, ttl: int, url: string, ftype: FileType, now: int)
    returns (data: Result<Json>)
    modifies fs
    ensures data == Refresh(old(fs.files), path, now, ttl, up, url, ftype).result
    ensures fs.files == Refresh(old(fs.files), path, now, ttl, up, url, ftype).files
    ensures fs.dirs == old(fs.dirs)
  {
    var expired := CacheExpired(fs, path, now, ttl);
    if expired {
      data := CacheGet(fs, up, url, path, ftype, now);
    } else {
      data := Load(fs.files, path);
    }
  }

  method DownloadDistrictPopulation(fs: FileSystem, up: Upstream, lang: string, now: int)
    returns (r: Result<Json>)
    modifies fs
    ensures r == Population(old(fs.files), fs.root, now, up, lang).result
    ensures fs.files == Population(old(fs.files), fs.root, now, up, lang).files
    ensures fs.dirs == old(fs.dirs) + {ContentDir(fs.root)}
  {
    var path := fs.CachePath(PopulationName);
    var data := RefreshFile(fs, up, path, PopulationTtl, PopulationUrl, WikipediaPage, now);
    match data {
      case Err(e) => r := Err(e);
      case Ok(d) => r := Subscript(d, lang);
    }
  }

  /** `district_strip(data, lang)`. */
  method DistrictStrip(fs: FileSystem, up: Upstream, data: Json, lang: string, now: int)
    returns (r: Result<map<string, District.Record>>)
    modifies fs
    ensures var p := Population(old(fs.files), fs.root, now, up, lang);
      && fs.files == p.files
      && r == (match p.result
               case Err(e) => Err(e)
               case Ok(population) => District.Join(data, population))
    ensures fs.dirs == old(fs.dirs) + {ContentDir(fs.root)}
  {
    var population := DownloadDistrictPopulation(fs, up, lang, now);
    match population {
      case Err(e) => r := Err(e);
      case Ok(p) => r := District.Join(data, p);
    }
  }

  method DownloadDistricts(fs: FileSystem, up: Upstream, lang: string, now: int)
    returns (r: Result<map<string, District.Record>>)
    modifies fs
    ensures r == Districts(old(fs.files), fs.root, now, up, lang).result
    ensures fs.files == Districts(old(fs.files), fs.root, now, up, lang).files
    ensures fs.dirs == old(fs.dirs) + {ContentDir(fs.root)}
  {
    var path := fs.CachePath(DistrictsName(lang));
    var data := RefreshFile(fs, up, path, DistrictTtl, DistrictsUrl(lang), JsonFile, now);
    match data {
      case Err(e) => r := Err(e);
      case Ok(d) => r := DistrictStrip(fs, up, d, lang, now);
    }
  }

  method FindMunicipality(fs: FileSystem, up: Upstream, municipality: string, now: int)
    returns (r: Result<map<string, District.Record>>)
    modifies fs
    ensures r == FindIn(old(fs.files), fs.root, now, up, municipality).result
    ensures fs.files == FindIn(old(fs.files), fs.root, now, up, municipality).files
    ensures fs.dirs == old(fs.dirs) + {ContentDir(fs.root)}
  {
    var titles := DownloadDistricts(fs, up, "sv", now);
    match titles {
      case Err(e) => r := Err(e);
      case Ok(t) => r := Ok(District.Find(t, municipality));
    }
  }

  // ---------------------------------------------------------------------
  // Consequences of the expiry rule
  // ---------------------------------------------------------------------

  /** Every age is below a day, so with threshold 86400 an existing file is
      never expired and never removed. */
  lemma PopulationNeverExpires(files: map<string, File>, path: string, now: int)
    requires path in files
    ensures !Expired(files, path, now, PopulationTtl)
    ensures Kept(files, path, now, PopulationTtl) == files
  {
  }

  /** Once the population file exists it is never fetched again: every
      request reads it, whatever the time, and leaves the store as it was. */
  lemma PopulationCachedForever(files: map<string, File>, root: string, now: int, up: Upstream, lang: string)
    requires ContentPath(root, PopulationName) in files
    ensures Population(files, root, now, up, lang).files == files
    ensures Population(files, root, now, up, lang).result
            == match Load(files, ContentPath(root, PopulationName))
               case Err(e) => Err(e)
               case Ok(d) => Subscript(d, lang)
  {
    PopulationNeverExpires(files, ContentPath(root, PopulationName), now);
  }

  /** An empty or unreadable population file is never replaced, so every
      request that gets as far as `district_strip` fails with the decode
      error, at any time. */
  lemma PopulationStuck(files: map<string, File>, root: string, now: int, up: Upstream, lang: string)
    requires ContentPath(root, PopulationName) in files
    requires !files[ContentPath(root, PopulationName)].content.Data?
    ensures Population(files, root, now, up, lang) == Outcome(Err(DecodeError), files)
    ensures Districts(files, root, now, up, lang).result.Err?
  {
    PopulationCachedForever(files, root, now, up, lang);
    var o := Refresh(files, ContentPath(root, DistrictsName(lang)), now, DistrictTtl, up, DistrictsUrl(lang), JsonFile);
    if o.result.Ok? {
      CacheFilesDistinct(root, lang, lang);
      assert ContentPath(root, PopulationName) in o.files && o.files[ContentPath(root, PopulationName)] == files[ContentPath(root, PopulationName)] by {
        KeptIff(files, ContentPath(root, DistrictsName(lang)), now, DistrictTtl);
      }
      PopulationCachedForever(o.files, root, now, up, lang);
    }
  }

  /** A case-count file is read again, without fetching, whenever the time
      since its modification is within an hour of a whole number of days:
      a file several days old counts as fresh. */
  lemma DistrictsReusedAfterWholeDays(files: map<string, File>, path: string, now: int, days: int, seconds: int)
    requires path in files && !files[path].content.Empty?
    requires 0 <= seconds <= DistrictTtl && now - files[path].mtime == days * Day + seconds
    ensures !Expired(files, path, now, DistrictTtl)
    ensures Kept(files, path, now, DistrictTtl) == files
  {
    AgeIsSeconds(files, path, now, days, seconds);
  }

  /** An empty case-count file is 3800 seconds old, so it is removed and
      fetched again. */
  lemma EmptyDistrictsRefetched(files: map<string, File>, path: string, now: int)
    requires path in files && files[path].content.Empty?
    ensures Expired(files, path, now, DistrictTtl)
    ensures Kept(files, path, now, DistrictTtl) == files - {path}
  {
  }

  /** A freshly fetched population table has only the keys `sv`, `fi` and
      `en`: any other language raises KeyError. */
  lemma PopulationLanguage(files: map<string, File>, root: string, now: int, up: Upstream, lang: string)
    requires ContentPath(root, PopulationName) !in files
    requires up.page(PopulationUrl).Ok? && Table.ParsePage(up.page(PopulationUrl).value).Ok?
    ensures var c := Table.ParsePage(up.page(PopulationUrl).value).value;
      Population(files, root, now, up, lang).result
      == (if lang in {"sv", "fi", "en"} then Subscript(Table.ToJson(c), lang) else Err(KeyError(lang)))
  {
    Table.LanguageTable(Table.ParsePage(up.page(PopulationUrl).value).value, lang);
  }
}
