/** The request path of `libs/c19lite_backend.py`. It shares the text
    cleaning, the table walk, the join and `cache_get` with `main.py`, but
    its `cache_expired` returns a number of seconds that the downloads test
    for truth, and its population threshold is a week. */
module LibsPipeline {
  import opened Json
  import opened Store
  import Table
  import District

  /** The default threshold of `cache_expired`: one hour. */
  const DistrictTtl: int := 3600
  /** The threshold `download_district_population` passes: a week. */
  const PopulationTtl: int := 604800

  /** What `cache_expired(path, ttl)` returns: for an existing file the
      `seconds` field of `now - mtime` (whole days dropped, whatever the
      size), for a missing one `ttl + 1`. */
  function Check(files: map<string, File>, path: string, now: int, ttl: int): (n: int)
    ensures path in files ==> 0 <= n < Day
    ensures path !in files ==> n > ttl
  {
    if path in files then (now - files[path].mtime) % Day else ttl + 1
  }

  /** The cache files `cache_expired(path, ttl)` leaves behind: an existing
      file is removed when the returned number is above `ttl`. */
  function Kept(files: map<string, File>, path: string, now: int, ttl: int): (kept: map<string, File>)
    ensures kept.Keys <= files.Keys && forall q :: q in kept ==> kept[q] == files[q]
    ensures forall q :: q != path && q in files ==> q in kept
  {
    if path in files && Check(files, path, now, ttl) > ttl then files - {path} else files
  }

  /** `cache_expired(path, ttl)`. */
  method CacheExpired(fs: FileSystem, path: string, now: int, ttl: int) returns (expired: int)
    modifies fs
    ensures expired == Check(old(fs.files), path, now, ttl)
    ensures fs.files == Kept(old(fs.files), path, now, ttl)
    ensures fs.dirs == old(fs.dirs)
  {
    if path in fs.files {
      expired := (now - fs.files[path].mtime) % Day;
      if expired > ttl {
        fs.Remove(path);
      }
    } else {
      expired := ttl + 1;
    }
  }

  /** A missing file: the number returned is above the threshold, so it is
      true for any threshold that is not negative, and nothing is removed. */
  lemma MissingFile(files: map<string, File>, path: string, now: int, ttl: int)
    requires path !in files && ttl >= 0
    ensures Check(files, path, now, ttl) > ttl && Check(files, path, now, ttl) != 0
    ensures Kept(files, path, now, ttl) == files
  {
  }

  /** With the week-long threshold the population file is never removed:
      the number returned is always below a day. */
  lemma PopulationNeverRemoved(files: map<string, File>, path: string, now: int)
    ensures Kept(files, path, now, PopulationTtl) == files
  {
  }

  /** `if cache_expired(path, ttl): cache_get(...) else: cache_load(path)`:
      the cache is read only when the number returned is 0. */
  function Refresh(files: map<string, File>, path: string, now: int, ttl: int,
                   up: Upstream, url: string, ftype: FileType): (o: Outcome<Json>)
    ensures SameExcept(files, o.files, {path})
    ensures o.result.Ok? ==> Load(o.files, path) == o.result
  {
    var kept := Kept(files, path, now, ttl);
    if Check(files, path, now, ttl) != 0 then
      match Fetched(up, url, ftype)
      case Err(e) => Outcome(Err(e), kept)
      case Ok(d) => Outcome(Ok(d), kept[path := File(now, Data(d))])
    else Outcome(Load(kept, path), kept)
  }

  /** A cache file is read only when it exists and was modified a whole
      number of days ago, to the second; at any other time it is fetched
      again, even when it is younger than the threshold. A fetch that fails
      leaves a young file in place. */
  lemma ReadOnlyAtWholeDays(files: map<string, File>, path: string, now: int, ttl: int,
                            up: Upstream, url: string, ftype: FileType)
    requires ttl >= 0
    ensures var o := Refresh(files, path, now, ttl, up, url, ftype);
      path in files && (now - files[path].mtime) % Day == 0 ==>
        o == Outcome(Load(files, path), files)
    ensures var o := Refresh(files, path, now, ttl, up, url, ftype);
      !(path in files && (now - files[path].mtime) % Day == 0) ==>
        && o.result == Fetched(up, url, ftype)
        && (o.result.Ok? ==> Load(o.files, path) == o.result && o.files[path].mtime == now)
        && (o.result.Err? && path in files && Check(files, path, now, ttl) <= ttl ==> o.files == files)
  {
  }

  /** With a file present the population is fetched again on every request
      except those a whole number of days after its last write, even though
      the file is never removed. */
  lemma PopulationRefetched(files: map<string, File>, path: string, now: int, up: Upstream)
    requires path in files && (now - files[path].mtime) % Day != 0
    ensures Refresh(files, path, now, PopulationTtl, up, PopulationUrl, WikipediaPage).result
            == Fetched(up, PopulationUrl, WikipediaPage)
  {
  }

  /** Unlike `main.py`, an empty file is not treated as old: read at a
      whole number of days after its write, it raises the decode error. */
  lemma EmptyReadAtWholeDays(files: map<string, File>, path: string, now: int, ttl: int,
                             up: Upstream, url: string, ftype: FileType)
    requires ttl >= 0
    requires path in files && files[path].content.Empty? && (now - files[path].mtime) % Day == 0
    ensures Refresh(files, path, now, ttl, up, url, ftype) == Outcome(Err(DecodeError), files)
  {
  }

  /** `download_district_population(lang)`: refresh, then `data[lang]`. */
  function Population(files: map<string, File>, root: string, now: int, up: Upstream, lang: string): (o: Outcome<Json>)
    ensures SameExcept(files, o.files, {ContentPath(root, PopulationName)})
  {
    var o := Refresh(files, ContentPath(root, PopulationName), now, PopulationTtl, up, PopulationUrl, WikipediaPage);
    match o.result
    case Err(e) => Outcome(Err(e), o.files)
    case Ok(d) => Outcome(Subscript(d, lang), o.files)
  }

  /** `download_districts(lang)`, with `district_strip` refreshing the
      population before it navigates the document. */
  function Districts(files: map<string, File>, root: string, now: int, up: Upstream, lang: string)
    : (o: Outcome<map<string, District.Record>>)
    ensures SameExcept(files, o.files, {ContentPath(root, DistrictsName(lang)), ContentPath(root, PopulationName)})
  {
    var o := Refresh(files, ContentPath(root, DistrictsName(lang)), now, DistrictTtl, up, DistrictsUrl(lang), JsonFile);
    match o.result
    case Err(e) => Outcome(Err(e), o.files)
    case Ok(data) =>
      var p := Population(o.files, root, now, up, lang);
      match p.result
      case Err(e) => Outcome(Err(e), p.files)
      case Ok(population) => Outcome(District.Join(data, population), p.files)
  }

  /** A `lang` other than `sv`, `fi` and `en` raises KeyError whenever the
      population table is fetched: on every request except those a whole
      number of days after the file's last write. */
  lemma PopulationLanguage(files: map<string, File>, root: string, now: int, up: Upstream, lang: string)
    requires var p := ContentPath(root, PopulationName); !(p in files && (now - files[p].mtime) % Day == 0)
    requires up.page(PopulationUrl).Ok? && Table.ParsePage(up.page(PopulationUrl).value).Ok?
    requires lang !in {"sv", "fi", "en"}
    ensures Population(files, root, now, up, lang).result == Err(KeyError(lang))
  {
    Table.LanguageTable(Table.ParsePage(up.page(PopulationUrl).value).value, lang);
  }

  // ---------------------------------------------------------------------
  // The imperative request path
  // ---------------------------------------------------------------------

  /** The branch both downloads share, testing the number for truth. */
  method RefreshFile(fs: FileSystem, up: Upstream, path: string, ttl: int, url: string, ftype: FileType, now: int)
    returns (data: Result<Json>)
    modifies fs
    ensures data == Refresh(old(fs.files), path, now, ttl, up, url, ftype).result
    ensures fs.files == Refresh(old(fs.files), path, now, ttl, up, url, ftype).files
    ensures fs.dirs == old(fs.dirs)
  {
    var expired := CacheExpired(fs, path, now, ttl);
    if expired != 0 {
      data := CacheGet(fs, up, url, path, ftype, now);
    } else {
      data := Load(fs.files, path);
    }
  }

  method DownloadDistrictPopulation(fs: FileSystem, up: Upstream, lang: string, now: int)
    returns (r: Result<Json>)
    modifies fs
    ensures r == Population(old(fs.files), fs.root, now, up, lang).result
    ensures fs.files == Population(old(fs.files), fs.root, now, up, lang).files
    ensures fs.dirs == old(fs.dirs) + {ContentDir(fs.root)}
  {
    var path := fs.CachePath(PopulationName);
    var data := RefreshFile(fs, up, path, PopulationTtl, PopulationUrl, WikipediaPage, now);
    match data {
      case Err(e) => r := Err(e);
      case Ok(d) => r := Subscript(d, lang);
    }
  }

  /** `district_strip(data, lang)`. */
  method DistrictStrip(fs: FileSystem, up: Upstream, data: Json, lang: string, now: int)
    returns (r: Result<map<string, District.Record>>)
    modifies fs
    ensures var p := Population(old(fs.files), fs.root, now, up, lang);
      && fs.files == p.files
      && r == (match p.result
               case Err(e) => Err(e)
               case Ok(population) => District.Join(data, population))
    ensures fs.dirs == old(fs.dirs) + {ContentDir(fs.root)}
  {
    var population := DownloadDistrictPopulation(fs, up, lang, now);
    match population {
      case Err(e) => r := Err(e);
      case Ok(p) => r := District.Join(data, p);
    }
  }

  method DownloadDistricts(fs: FileSystem, up: Upstream, lang: string, now: int)
    returns (r: Result<map<string, District.Record>>)
    modifies fs
    ensures r == Districts(old(fs.files), fs.root, now, up, lang).result
    ensures fs.files == Districts(old(fs.files), fs.root, now, up, lang).files
    ensures fs.dirs == old(fs.dirs) + {ContentDir(fs.root)}
  {
    var path := fs.CachePath(DistrictsName(lang));
    var data := RefreshFile(fs, up, path, DistrictTtl, DistrictsUrl(lang), JsonFile, now);
    match data {
      case Err(e) => r := Err(e);
      case Ok(d) => r := DistrictStrip(fs, up, d, lang, now);
    }
  }
}
