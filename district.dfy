/** The join of the case counts published per municipality with the
    population table: `municipality_amount`, the comprehension of
    `district_strip`, and the filter of `find_municipality`. */
module District {
  import opened PyStrings
  import opened Json

  /** One record of the result: `{'name': v, 'amount': ..., 'population': ...}`. */
  datatype Record = Record(name: Json, amount: int, population: Json)

  /** `value.get(str(index.get(key)))`: the raw count stored for label `key`.
      It fails only when `index` or `value` is not a dict, or the index entry
      is a list or dict. */
  function Entry(value: Json, index: Json, key: string): (r: Result<Json>)
    ensures r.Ok? <==> index.Obj? && value.Obj?
                       && !(key in index.fields && (index.fields[key].Arr? || index.fields[key].Obj?))
    ensures r.Err? ==> r.error == AttributeError || r.error == Unmodelled
  {
    match Get(index, Str(key), Null)
    case Err(e) => Err(e)
    case Ok(i) =>
      match ToStr(i)
      case Err(e) => Err(e)
      case Ok(s) => Get(value, Str(s), Null)
  }

  /** `municipality_amount(value, index, key)`: the entry must be a string
      (anything else has no `isdigit` and raises AttributeError); a string
      of digits reads as its base-10 value, any other string as 0. */
  function Amount(value: Json, index: Json, key: string): (r: Result<int>)
    ensures r.Ok? <==> Entry(value, index, key).Ok? && Entry(value, index, key).value.Str?
    ensures r.Ok? ==> r.value >= 0
    ensures r.Ok? ==> var s := Entry(value, index, key).value.s;
      && (IsDigit(s) ==> ParseInt(s) == Some(r.value))
      && (!IsDigit(s) ==> r.value == 0)
    ensures r.Err? ==> r.error == AttributeError || r.error == Unmodelled
  {
    match Entry(value, index, key)
    case Err(e) => Err(e)
    case Ok(Str(s)) =>
      if IsDigit(s) then ParseDigits(s); Ok(DigitsValue(s)) else Ok(0)
    case Ok(_) => Err(AttributeError)
  }

  /** The label key is not in `index`: `str(None)` is looked up, and where
      `value` has no `"None"` entry `None.isdigit()` raises. */
  lemma MissingIndexKey(value: Json, index: Json, key: string)
    requires index.Obj? && key !in index.fields
    requires value.Obj? && "None" !in value.fields
    ensures Amount(value, index, key) == Err(AttributeError)
  {
  }

  /** The usual shape: the index maps the label to an int `i`, and `value`
      holds the count under `str(i)`. */
  lemma IndexedAmount(value: Json, index: Json, key: string, i: int, s: string)
    requires index.Obj? && key in index.fields && index.fields[key] == Int(i)
    requires value.Obj? && IntToString(i) in value.fields && value.fields[IntToString(i)] == Str(s)
    ensures IsDigit(s) ==> Amount(value, index, key) == Ok(DigitsValue(s))
    ensures !IsDigit(s) ==> Amount(value, index, key) == Ok(0)
  {
  }

  /** The index names an entry that `value` lacks: `None.isdigit()` raises. */
  lemma MissingValueEntry(value: Json, index: Json, key: string, i: int)
    requires index.Obj? && key in index.fields && index.fields[key] == Int(i)
    requires value.Obj? && IntToString(i) !in value.fields
    ensures Amount(value, index, key) == Err(AttributeError)
  {
  }

  /** The path `data['dataset']['value']`, `['dimension']
      ['hcdmunicipality2020']['category']['label']` and `['index']`, in the
      order the source subscripts them. */
  datatype Category = Category(value: Json, labels: Json, index: Json)

  /** `j` is a dict with `key`. */
  predicate Has(j: Json, key: string)
  {
    j.Obj? && key in j.fields
  }

  /** Every subscript of the path finds its key. */
  predicate HasPath(data: Json)
  {
    && Has(data, "dataset")
    && var d := data.fields["dataset"];
    && Has(d, "value") && Has(d, "dimension")
    && var m := d.fields["dimension"];
    && Has(m, "hcdmunicipality2020")
    && var t := m.fields["hcdmunicipality2020"];
    && Has(t, "category")
    && var c := t.fields["category"];
    && Has(c, "label") && Has(c, "index")
  }

  function Navigate(data: Json): (r: Result<Category>)
    ensures r.Ok? <==> HasPath(data)
  {
    match Subscript(data, "dataset")
    case Err(e) => Err(e)
    case Ok(dataset) =>
      match Subscript(dataset, "value")
      case Err(e) => Err(e)
      case Ok(value) =>
        match Subscript(dataset, "dimension")
        case Err(e) => Err(e)
        case Ok(dimension) =>
          match Subscript(dimension, "hcdmunicipality2020")
          case Err(e) => Err(e)
          case Ok(target) =>
            match Subscript(target, "category")
            case Err(e) => Err(e)
            case Ok(category) =>
              match Subscript(category, "label")
              case Err(e) => Err(e)
              case Ok(labels) =>
                match Subscript(category, "index")
                case Err(e) => Err(e)
                case Ok(index) => Ok(Category(value, labels, index))
  }

  /** The seven keys `district_strip` subscripts. */
  const PathKeys: set<string> :=
    {"dataset", "value", "dimension", "hcdmunicipality2020", "category", "label", "index"}

  /** Navigation fails only with a KeyError naming one of the seven keys,
      or a TypeError where a step meets a value that is not a dict: the
      first key the path lacks, in subscript order, raises KeyError for
      that key. */
  lemma NavigateErrors(data: Json)
    ensures Navigate(data).Err? ==>
              Navigate(data).error == TypeError
              || (Navigate(data).error.KeyError? && Navigate(data).error.key in PathKeys)
    ensures !data.Obj? ==> Navigate(data) == Err(TypeError)
    ensures data.Obj? && !Has(data, "dataset") ==> Navigate(data) == Err(KeyError("dataset"))
    ensures Has(data, "dataset") ==>
              var d := data.fields["dataset"];
              && (!d.Obj? ==> Navigate(data) == Err(TypeError))
              && (d.Obj? && !Has(d, "value") ==> Navigate(data) == Err(KeyError("value")))
              && (Has(d, "value") && !Has(d, "dimension") ==> Navigate(data) == Err(KeyError("dimension")))
    ensures Has(data, "dataset") && Has(data.fields["dataset"], "value")
            && Has(data.fields["dataset"], "dimension") ==>
              var m := data.fields["dataset"].fields["dimension"];
              && (!m.Obj? ==> Navigate(data) == Err(TypeError))
              && (m.Obj? && !Has(m, "hcdmunicipality2020") ==>
                    Navigate(data) == Err(KeyError("hcdmunicipality2020")))
              && (Has(m, "hcdmunicipality2020") ==>
                    var t := m.fields["hcdmunicipality2020"];
                    && (!t.Obj? ==> Navigate(data) == Err(TypeError))
                    && (t.Obj? && !Has(t, "category") ==> Navigate(data) == Err(KeyError("category")))
                    && (Has(t, "category") ==>
                          var c := t.fields["category"];
                          && (!c.Obj? ==> Navigate(data) == Err(TypeError))
                          && (c.Obj? && !Has(c, "label") ==> Navigate(data) == Err(KeyError("label")))
                          && (Has(c, "label") && !Has(c, "index") ==> Navigate(data) == Err(KeyError("index")))))
  {
  }

  /** On a document that has every key, navigation yields the value table,
      the labels and the index found along the path. */
  lemma NavigateFinds(data: Json)
    requires HasPath(data)
    ensures var d := data.fields["dataset"];
      var c := d.fields["dimension"].fields["hcdmunicipality2020"].fields["category"];
      Navigate(data) == Ok(Category(d.fields["value"], c.fields["label"], c.fields["index"]))
  {
  }

  /** The record built for label `k` with name `v`, in the order the dict
      display evaluates it: the amount first, then `population.get(v, 0)`. */
  function Item(c: Category, population: Json, k: string, v: Json): (r: Result<Record>)
    ensures r.Ok? ==> r.value.name == v && r.value.amount >= 0
  {
    match Amount(c.value, c.index, k)
    case Err(e) => Err(e)
    case Ok(a) =>
      match Get(population, v, Int(0))
      case Err(e) => Err(e)
      case Ok(p) => Ok(Record(v, a, p))
  }

  /** Which exception escapes when several labels fail. */
  function Pick(errors: set<Error>): Error
  {
    if AttributeError in errors then AttributeError
    else if TypeError in errors then TypeError
    else Unmodelled
  }

  /** The outcome of every item of `label`, by label key. */
  function Items(c: Category, population: Json): (items: map<string, Result<Record>>)
    requires c.labels.Obj?
    ensures items.Keys == c.labels.fields.Keys
    ensures forall k :: k in items ==> items[k] == Item(c, population, k, c.labels.fields[k])
  {
    map k | k in c.labels.fields :: Item(c, population, k, c.labels.fields[k])
  }

  /** `district_strip(data, lang)` once `population` has been fetched: the
      path is navigated, then one record is built per item of `label`
      (`label.items()` raises AttributeError on anything but a dict). */
  function Join(data: Json, population: Json): (r: Result<map<string, Record>>)
    ensures r.Ok? ==> HasPath(data) && Navigate(data).value.labels.Obj?
                      && r.value.Keys == Navigate(data).value.labels.fields.Keys
    ensures r.Err? ==> r.error in {TypeError, AttributeError, Unmodelled}
                       || (r.error.KeyError? && r.error.key in PathKeys)
  {
    NavigateErrors(data);
    match Navigate(data)
    case Err(e) => Err(e)
    case Ok(c) =>
      if !c.labels.Obj? then Err(AttributeError)
      else
        var items := Items(c, population);
        if forall k :: k in items ==> items[k].Ok? then
          Ok(map k | k in items :: items[k].value)
        else
          Err(Pick(set k | k in items && items[k].Err? :: items[k].error))
  }

  /** Every exception a single item can raise. */
  lemma ItemErrors(c: Category, population: Json, k: string, v: Json)
    ensures var r := Item(c, population, k, v);
      r.Err? ==> r.error in {AttributeError, TypeError, Unmodelled}
  {
  }

  /** The exception `Pick` reports is one of the given ones. */
  lemma PickMember(errors: set<Error>)
    requires errors != {} && errors <= {AttributeError, TypeError, Unmodelled}
    ensures Pick(errors) in errors
  {
  }

  /** A failed navigation propagates its KeyError or TypeError, and
      `label.items()` raises AttributeError on anything but a dict. */
  lemma JoinNavigation(data: Json, population: Json)
    ensures Navigate(data).Err? ==> Join(data, population) == Err(Navigate(data).error)
    ensures Navigate(data).Ok? && !Navigate(data).value.labels.Obj? ==>
              Join(data, population) == Err(AttributeError)
  {
  }

  /** The join succeeds exactly when navigation succeeds, `label` is a dict
      and every one of its items builds a record. */
  lemma JoinOkIff(data: Json, population: Json)
    ensures Join(data, population).Ok? <==>
              && Navigate(data).Ok?
              && var c := Navigate(data).value;
              && c.labels.Obj?
              && forall k :: k in c.labels.fields ==> Item(c, population, k, c.labels.fields[k]).Ok?
  {
    if Navigate(data).Ok? && Navigate(data).value.labels.Obj? {
      var c := Navigate(data).value;
      var labels := c.labels.fields;
      var items := Items(c, population);
      if forall k :: k in labels ==> Item(c, population, k, labels[k]).Ok? {
        assert forall k :: k in items ==> items[k].Ok?;
      } else {
        var k :| k in labels && !Item(c, population, k, labels[k]).Ok?;
        assert !items[k].Ok?;
      }
    }
  }

  /** A successful join has exactly the keys of `label`; each record
      carries the label as its name, the non-negative amount
      `municipality_amount` gives and the population `population.get(name,
      0)` gives. */
  lemma JoinRecords(data: Json, population: Json)
    requires Join(data, population).Ok?
    ensures Navigate(data).Ok? && Navigate(data).value.labels.Obj?
    ensures var c := Navigate(data).value;
      var labels := c.labels.fields;
      var records := Join(data, population).value;
      && records.Keys == labels.Keys
      && forall k :: k in records ==>
           && records[k].name == labels[k]
           && records[k].amount >= 0
           && Amount(c.value, c.index, k) == Ok(records[k].amount)
           && Get(population, labels[k], Int(0)) == Ok(records[k].population)
  {
  }

  /** When an item fails, the join raises an exception that some item
      raises. */
  lemma JoinItemError(data: Json, population: Json)
    requires Join(data, population).Err? && Navigate(data).Ok? && Navigate(data).value.labels.Obj?
    ensures var c := Navigate(data).value;
      var labels := c.labels.fields;
      exists k :: k in labels && Item(c, population, k, labels[k]) == Err(Join(data, population).error)
  {
    var c := Navigate(data).value;
    var labels := c.labels.fields;
    var items := Items(c, population);
    var errors := set k | k in items && items[k].Err? :: items[k].error;
    forall k | k in items && items[k].Err?
      ensures items[k].error in {AttributeError, TypeError, Unmodelled}
    {
      ItemErrors(c, population, k, labels[k]);
    }
    var k0 :| k0 in items && items[k0].Err?;
    assert items[k0].error in errors;
    PickMember(errors);
    var k1 :| k1 in items && items[k1].Err? && items[k1].error == Pick(errors);
    assert Item(c, population, k1, labels[k1]) == Err(Join(data, population).error);
  }

  /** `find_municipality`: the records whose name equals `municipality.title()`. */
  function Find(titles: map<string, Record>, municipality: string): (r: map<string, Record>)
    ensures r.Keys <= titles.Keys
    ensures forall k :: k in r ==> r[k] == titles[k]
    ensures forall k :: k in titles ==> (k in r <==> titles[k].name == Str(Title(municipality)))
  {
    map k | k in titles && titles[k].name == Str(Title(municipality)) :: titles[k]
  }

  /** The query is title-cased first, so title-casing it beforehand changes
      nothing. */
  lemma FindTitleInvariant(titles: map<string, Record>, municipality: string)
    ensures Find(titles, Title(municipality)) == Find(titles, municipality)
  {
    TitleIdempotent(municipality);
  }

  /** Only names that title-casing leaves unchanged can ever be found: a
      record named `Str(n)` with `Title(n) != n` is missed whatever the
      query. */
  lemma FoundNamesAreTitled(titles: map<string, Record>, municipality: string)
    ensures forall k :: k in Find(titles, municipality) ==>
              var n := titles[k].name;
              n.Str? && Title(n.s) == n.s
  {
    TitleIdempotent(municipality);
  }
}
