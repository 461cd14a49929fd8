/** The cache directory both revisions keep next to their source file:
    `cache_path`, `cache_load` and `cache_get`, over an abstract file store
    (path to modification time and content) and an abstract upstream. */
module Store {
  import opened Json
  import Table

  /** What a cache file holds: nothing (zero bytes), bytes that are not
      JSON, or a JSON document. */
  datatype Content = Empty | Garbage | Data(json: Json)

  /** A cache file: its modification time in whole seconds and its content. */
  datatype File = File(mtime: int, content: Content)

  /** Seconds in a day. */
  const Day: int := 86400

  /** `cache_path(name)`: `{where}/content/{name}`. */
  function ContentDir(root: string): string
  {
    root + "/content"
  }

  function ContentPath(root: string, name: string): (path: string)
    ensures path == ContentDir(root) + "/" + name
  {
    root + "/content/" + name
  }

  /** The cache file of the case counts for one language. */
  function DistrictsName(lang: string): string
  {
    "districts_" + lang + ".json"
  }

  const PopulationName: string := "population.json"

  /** Different names give different cache files. */
  lemma ContentPathInjective(root: string, a: string, b: string)
    requires ContentPath(root, a) == ContentPath(root, b)
    ensures a == b
  {
    var n := |root + "/content/"|;
    assert a == ContentPath(root, a)[n..];
    assert b == ContentPath(root, b)[n..];
  }

  /** Each language has its own case-count file, and none of them is the
      population file. */
  lemma CacheFilesDistinct(root: string, lang: string, other: string)
    ensures ContentPath(root, DistrictsName(lang)) == ContentPath(root, DistrictsName(other)) ==> lang == other
    ensures ContentPath(root, DistrictsName(lang)) != ContentPath(root, PopulationName)
  {
    if ContentPath(root, DistrictsName(lang)) == ContentPath(root, DistrictsName(other)) {
      ContentPathInjective(root, DistrictsName(lang), DistrictsName(other));
      var a, b := DistrictsName(lang), DistrictsName(other);
      assert lang == a[10..|a| - 5] && other == b[10..|b| - 5];
    }
    var n := |root + "/content/"|;
    assert ContentPath(root, DistrictsName(lang))[n] == 'd';
    assert ContentPath(root, PopulationName)[n] == 'p';
  }

  /** `cache_load(path)`: `open` fails on a missing file and `json.load` on
      one that is empty or not JSON. */
  function Load(files: map<string, File>, path: string): (r: Result<Json>)
    ensures r.Ok? <==> path in files && files[path].content.Data?
    ensures r.Ok? ==> r.value == files[path].content.json
    ensures path !in files ==> r == Err(FileNotFound)
    ensures path in files && !files[path].content.Data? ==> r == Err(DecodeError)
  {
    if path !in files then Err(FileNotFound)
    else match files[path].content
      case Data(j) => Ok(j)
      case _ => Err(DecodeError)
  }

  /** The file store: the files under the cache directory and the
      directories made so far. */
  class FileSystem {
    /** `os.path.dirname(os.path.abspath(__file__))`. */
    const root: string
    var files: map<string, File>
    var dirs: set<string>

    constructor (root: string, files: map<string, File>)
      ensures this.root == root && this.files == files && dirs == {}
    {
      this.root := root;
      this.files := files;
      dirs := {};
    }

    /** `cache_path(name)`: makes the content directory (if missing) and
        names the file in it. */
    method CachePath(name: string) returns (path: string)
      modifies this
      ensures path == ContentPath(root, name)
      ensures dirs == old(dirs) + {ContentDir(root)}
      ensures files == old(files)
    {
      dirs := dirs + {ContentDir(root)};
      path := root + "/content/" + name;
    }

    /** `os.remove(path)`. */
    method Remove(path: string)
      modifies this
      requires path in files
      ensures files == old(files) - {path}
      ensures dirs == old(dirs)
    {
      files := files - {path};
    }

    /** `open(path, 'w').write(json.dumps(content))` at time `now`. */
    method Write(path: string, content: Json, now: int)
      modifies this
      ensures files == old(files)[path := File(now, Data(content))]
      ensures dirs == old(dirs)
    {
      files := files[path := File(now, Data(content))];
    }
  }

  /** The case counts for one language, as published by the health
      institute's open data cube. */
  function DistrictsUrl(lang: string): string
  {
    "https://sampo.thl.fi/pivot/prod/" + lang
    + "/epirapo/covid19case/fact_epirapo_covid19case.json?column=hcdmunicipality2020-445268L"
  }

  /** The list of Finland's municipalities on the Swedish-language wiki. */
  const PopulationUrl: string := "https://sv.wikipedia.org/wiki/Lista_%C3%B6ver_Finlands_kommuner"

  /** `after` differs from `before` at most at the given paths. */
  ghost predicate SameExcept(before: map<string, File>, after: map<string, File>, paths: set<string>)
  {
    forall q :: q !in paths ==> (q in after <==> q in before) && (q in after ==> after[q] == before[q])
  }

  /** What a step of the pipeline returns or raises, and the cache files it
      leaves behind. */
  datatype Outcome<T> = Outcome(result: Result<T>, files: map<string, File>)

  /** The two kinds of fetch `cache_get` makes. */
  datatype FileType = JsonFile | WikipediaPage

  /** The network: what `requests.get(url).json()` yields (RequestError
      when the request itself fails, DecodeError when the body is not
      JSON), and the page `requests.get(url)` returns or RequestError. */
  datatype Upstream = Upstream(json: string -> Result<Json>, page: string -> Result<Table.Response>)

  /** The JSON document `cache_get(url, path, ftype)` returns, or the
      exception it raises. A page fetch yields a dict of exactly the three
      language tables; it fails when the request fails or the walk raises. */
  function Fetched(up: Upstream, url: string, ftype: FileType): (r: Result<Json>)
    ensures ftype.JsonFile? ==> r == up.json(url)
    ensures ftype.WikipediaPage? ==>
              (r.Ok? <==> up.page(url).Ok? && Table.ParsePage(up.page(url).value).Ok?)
    ensures ftype.WikipediaPage? && up.page(url).Err? ==> r == Err(up.page(url).error)
    ensures ftype.WikipediaPage? && r.Ok? ==> r.value.Obj? && r.value.fields.Keys == {"sv", "fi", "en"}
  {
    match ftype
    case JsonFile => up.json(url)
    case WikipediaPage =>
      match up.page(url)
      case Err(e) => Err(e)
      case Ok(response) =>
        match Table.ParsePage(response)
        case Err(e) => Err(e)
        case Ok(c) => Ok(Table.ToJson(c))
  }

  /** `cache_get(url, path, ftype)`: fetches, and only once the content is
      in hand writes it to `path`; a later `cache_load(path)` returns it. */
  method CacheGet(fs: FileSystem, up: Upstream, url: string, path: string, ftype: FileType, now: int)
    returns (r: Result<Json>)
    modifies fs
    ensures r == Fetched(up, url, ftype)
    ensures r.Ok? ==> fs.files == old(fs.files)[path := File(now, Data(r.value))]
    ensures r.Ok? ==> Load(fs.files, path) == r
    ensures r.Err? ==> fs.files == old(fs.files)
    ensures fs.dirs == old(fs.dirs)
  {
    match ftype {
      case JsonFile =>
        r := up.json(url);
      case WikipediaPage =>
        var response := up.page(url);
        match response {
          case Err(e) => r := Err(e);
          case Ok(resp) =>
            var page := Table.Wikipedia(resp);
            match page {
              case Err(e) => r := Err(e);
              case Ok(c) => r := Ok(Table.ToJson(c));
            }
        }
    }
    if r.Ok? {
      fs.Write(path, r.value, now);
    }
  }
}
