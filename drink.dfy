/** models/drink.go: the drink entity, the search options parsed from the
    query string, the clauses of the search query, and the create, delete
    and search operations against the database. */
module Models {
  import opened Wrappers
  import opened Strings
  import opened StrConv
  import opened Errors
  import opened Validation
  import opened Store

  // ---------------------------------------------------------------------
  // Search options

  /** `url.Values`: each parameter name with its values. */
  type Params = map<string, seq<string>>

  /** `url.Values.Get`: the first value of the key, or "" when the key is
      missing or has no value. */
  function Get(params: Params, key: string): (v: string)
    ensures key in params && |params[key]| > 0 ==> v == params[key][0]
    ensures key !in params || params[key] == [] ==> v == ""
  {
    if key in params && |params[key]| > 0 then params[key][0] else ""
  }

  /** `DrinkSearchOptions`; a nil pointer field is None. */
  datatype SearchOptions = SearchOptions(
    name: Option<string>,
    date: Option<Time>,
    offset: Option<int>,
    limit: Option<int>,
    ingredients: Option<seq<string>>)

  const NoOptions: SearchOptions := SearchOptions(None, None, None, None, None)

  const DateContext: string := "Failed parsing date field as a drink search parameter"
  const OffsetContext: string := "Failed parsing offset field as a drink search parameter"
  const OffsetNegative: string := "Offset must be a non-negative integer"
  const LimitContext: string := "Failed parsing limit field as a drink search parameter"
  const LimitNegative: string := "Limit must be a non-negative integer"

  /** A text that ParseInt accepts as an int64 value of at least 0. */
  predicate IsCount(s: string)
  {
    InRange(ParseInt(s), 0, Int64Cutoff - 1)
  }

  /** The date parameter is absent, empty, or readable as a time. */
  predicate DateAccepted(params: Params, parseDate: string -> Option<Time>)
  {
    Get(params, "date") == "" || parseDate(Get(params, "date")).Some?
  }

  /** An offset or limit parameter is absent, empty, or a count. */
  predicate CountAccepted(s: string)
  {
    s == "" || IsCount(s)
  }

  /** The offset and limit branches: ParseInt, then the sign check. */
  function ParseCount(s: string, context: string, negative: string): (r: Result<int, Error>)
    ensures r.Ok? <==> IsCount(s)
    ensures r.Ok? ==> ParseInt(s) == Ok(r.value)
    ensures ParseInt(s).Err? ==> r == Err(Wrap(NumError(s, ParseInt(s).error), context))
    ensures ParseInt(s).Ok? && ParseInt(s).value < 0 ==> r == Err(New(negative))
  {
    match ParseInt(s)
    case Err(e) => Err(Wrap(NumError(s, e), context))
    case Ok(v) => if v < 0 then Err(New(negative)) else Ok(v)
  }

  /** `NewDrinkSearchOptions`. Time parsing with the service's time format
      is the input `parseDate`. The options are returned together with the
      error, as Go returns them: filled in up to the failing parameter. */
  function NewDrinkSearchOptions(params: Params, parseDate: string -> Option<Time>): (r: (SearchOptions, Option<Error>))
    // the name is taken verbatim; empty or missing parameters leave a field unset
    ensures r.0.name == if Get(params, "name") != "" then Some(Get(params, "name")) else None
    ensures Get(params, "date") == "" ==> r.0.date.None?
    ensures Get(params, "offset") == "" ==> r.0.offset.None?
    ensures Get(params, "limit") == "" ==> r.0.limit.None?
    ensures Get(params, "ingredients") == "" ==> r.0.ingredients.None?
    // a field that is set holds the parsed parameter
    ensures r.0.date.Some? ==> parseDate(Get(params, "date")) == r.0.date
    ensures r.0.offset.Some? ==> r.0.offset.value >= 0 && ParseInt(Get(params, "offset")) == Ok(r.0.offset.value)
    ensures r.0.limit.Some? ==> r.0.limit.value >= 0 && ParseInt(Get(params, "limit")) == Ok(r.0.limit.value)
    ensures r.0.ingredients.Some? ==> r.0.ingredients.value == Split(Get(params, "ingredients"), ',')
    // errors, in the order the parameters are examined; later fields stay unset
    ensures r.1.None? <==>
      DateAccepted(params, parseDate) && CountAccepted(Get(params, "offset")) && CountAccepted(Get(params, "limit"))
    ensures !DateAccepted(params, parseDate) ==>
      r.1 == Some(Wrap(TimeParseError, DateContext)) &&
      r.0.date.None? && r.0.offset.None? && r.0.limit.None? && r.0.ingredients.None?
    ensures DateAccepted(params, parseDate) && !CountAccepted(Get(params, "offset")) ==>
      r.1 == Some(ParseCount(Get(params, "offset"), OffsetContext, OffsetNegative).error) &&
      r.0.offset.None? && r.0.limit.None? && r.0.ingredients.None?
    ensures (DateAccepted(params, parseDate) && CountAccepted(Get(params, "offset")) &&
             !CountAccepted(Get(params, "limit"))) ==>
      r.1 == Some(ParseCount(Get(params, "limit"), LimitContext, LimitNegative).error) &&
      r.0.limit.None? && r.0.ingredients.None?
    // a parameter accepted before a failing one still sets its field
    ensures DateAccepted(params, parseDate) ==> (Get(params, "date") != "" <==> r.0.date.Some?)
    ensures DateAccepted(params, parseDate) && CountAccepted(Get(params, "offset")) ==>
      (Get(params, "offset") != "" <==> r.0.offset.Some?)
    // without error, every non-empty parameter sets its field
    ensures r.1.None? ==>
      (Get(params, "date") != "" <==> r.0.date.Some?) &&
      (Get(params, "offset") != "" <==> r.0.offset.Some?) &&
      (Get(params, "limit") != "" <==> r.0.limit.Some?) &&
      (Get(params, "ingredients") != "" <==> r.0.ingredients.Some?)
  {
    var nameStr := Get(params, "name");
    var o1 := NoOptions.(name := if nameStr != "" then Some(nameStr) else None);
    var dateStr := Get(params, "date");
    if dateStr != "" && parseDate(dateStr).None? then (o1, Some(Wrap(TimeParseError, DateContext)))
    else
      var o2 := if dateStr != "" then o1.(date := parseDate(dateStr)) else o1;
      var offsetStr := Get(params, "offset");
      var offset := ParseCount(offsetStr, OffsetContext, OffsetNegative);
      if offsetStr != "" && offset.Err? then (o2, Some(offset.error))
      else
        var o3 := if offsetStr != "" then o2.(offset := Some(offset.value)) else o2;
        var limitStr := Get(params, "limit");
        var limit := ParseCount(limitStr, LimitContext, LimitNegative);
        if limitStr != "" && limit.Err? then (o3, Some(limit.error))
        else
          var o4 := if limitStr != "" then o3.(limit := Some(limit.value)) else o3;
          var ingrStr := Get(params, "ingredients");
          (if ingrStr != "" then o4.(ingredients := Some(Split(ingrStr, ','))) else o4, None)
  }

  /** The options NewDrinkSearchOptions can produce: a non-empty name,
      int64 counts of at least 0, and at least one ingredient, none holding
      a comma, not the single empty one. */
  predicate WellFormed(o: SearchOptions)
  {
    && (o.name.Some? ==> o.name.value != "")
    && (o.offset.Some? ==> 0 <= o.offset.value < Int64Cutoff)
    && (o.limit.Some? ==> 0 <= o.limit.value < Int64Cutoff)
    && (o.ingredients.Some? ==>
          |o.ingredients.value| >= 1 && o.ingredients.value != [""] &&
          forall i :: 0 <= i < |o.ingredients.value| ==> ',' !in o.ingredients.value[i])
  }

  /** A list of comma-free pieces joins to "" only when it is [""]. */
  lemma JoinEmpty(xs: seq<string>)
    requires |xs| >= 1 && forall i :: 0 <= i < |xs| ==> ',' !in xs[i]
    ensures Join(xs, ',') == "" <==> xs == [""]
  {
    if |xs| > 1 {
      assert Join(xs, ',') == xs[0] + [','] + Join(xs[1..], ',');
      assert Join(xs, ',')[|xs[0]|] == ',';
    }
  }

  /** Whatever the parameters, the options returned are well formed, even
      alongside an error. */
  lemma ParsedOptionsWellFormed(params: Params, parseDate: string -> Option<Time>)
    ensures WellFormed(NewDrinkSearchOptions(params, parseDate).0)
  {
    var o := NewDrinkSearchOptions(params, parseDate).0;
    if o.ingredients.Some? {
      var s := Get(params, "ingredients");
      SplitPieces(s, ',');
      JoinSplit(s, ',');
      JoinEmpty(Split(s, ','));
    }
  }

  /** The query string a client sends for the given options; `formatDate`
      writes a time in the service's time format. */
  function EncodeParams(o: SearchOptions, formatDate: Time -> string): Params
  {
    var m0: Params := map[];
    var m1 := if o.name.Some? then m0["name" := [o.name.value]] else m0;
    var m2 := if o.date.Some? then m1["date" := [formatDate(o.date.value)]] else m1;
    var m3 := if o.offset.Some? then m2["offset" := [FormatInt(o.offset.value)]] else m2;
    var m4 := if o.limit.Some? then m3["limit" := [FormatInt(o.limit.value)]] else m3;
    if o.ingredients.Some? then m4["ingredients" := [Join(o.ingredients.value, ',')]] else m4
  }

  /** Parsing the query string written for well-formed options gives them
      back, without error, provided the time format reads back its own
      output. */
  lemma SearchOptionsRoundTrip(o: SearchOptions, formatDate: Time -> string, parseDate: string -> Option<Time>)
    requires WellFormed(o)
    requires forall t :: formatDate(t) != "" && parseDate(formatDate(t)) == Some(t)
    ensures NewDrinkSearchOptions(EncodeParams(o, formatDate), parseDate) == (o, None)
  {
    var p := EncodeParams(o, formatDate);
    assert Get(p, "name") == if o.name.Some? then o.name.value else "";
    if o.date.Some? {
      var t := o.date.value;
      assert formatDate(t) != "" && parseDate(formatDate(t)) == Some(t);
      assert Get(p, "date") == formatDate(t);
    } else {
      assert Get(p, "date") == "";
    }
    if o.offset.Some? {
      ParseFormatInt(o.offset.value);
      assert Get(p, "offset") == FormatInt(o.offset.value);
      assert IsCount(Get(p, "offset"));
    } else {
      assert Get(p, "offset") == "";
    }
    if o.limit.Some? {
      ParseFormatInt(o.limit.value);
      assert Get(p, "limit") == FormatInt(o.limit.value);
      assert IsCount(Get(p, "limit"));
    } else {
      assert Get(p, "limit") == "";
    }
    if o.ingredients.Some? {
      var xs := o.ingredients.value;
      SplitJoin(xs, ',');
      JoinEmpty(xs);
      assert Get(p, "ingredients") == Join(xs, ',');
    } else {
      assert Get(p, "ingredients") == "";
    }
    var r := NewDrinkSearchOptions(p, parseDate);
    assert r.1.None?;
    assert r.0.name == o.name;
    assert r.0.date == o.date;
    assert r.0.offset == o.offset;
    assert r.0.limit == o.limit;
    assert r.0.ingredients == o.ingredients;
  }

  // ---------------------------------------------------------------------
  // The search query (`dbQuery`), as the clauses it places around the fixed
  // SELECT ... FROM drinks d LEFT JOIN drinks_ingredients di ... part

  datatype Clause =
    | NameEquals(name: string)            // AND d.name = '<name>'
    | DateWithin(date: Time)              // AND '<date>' BETWEEN d.start AND d.end
    | IngredientIn(quoted: seq<string>)   // INNER JOIN drinks_ingredients di2 ... IN (<quoted, joined by ",">)
    | GroupById                           // GROUP BY d.id
    | OrderByCreated                      // ORDER BY created ASC
    | OffsetRows(n: int)                  // OFFSET <n>
    | LimitRows(n: int)                   // LIMIT <n>

  /** `'%s'`. */
  function Quote(s: string): string
  {
    "'" + s + "'"
  }

  function Unquote(q: string): string
  {
    if |q| >= 2 then q[1..|q| - 1] else q
  }

  /** The position of each kind of clause in the query text. */
  function Rank(c: Clause): nat
  {
    match c
    case NameEquals(_) => 0
    case DateWithin(_) => 1
    case IngredientIn(_) => 2
    case GroupById => 3
    case OrderByCreated => 4
    case OffsetRows(_) => 5
    case LimitRows(_) => 6
  }

  /** Clauses strictly in text order: each kind at most once. */
  predicate InTextOrder(q: seq<Clause>)
  {
    forall i, j :: 0 <= i < j < |q| ==> Rank(q[i]) < Rank(q[j])
  }

  /** Some clause of the query has the given rank. */
  predicate HasKind(q: seq<Clause>, rank: nat)
  {
    exists i :: 0 <= i < |q| && Rank(q[i]) == rank
  }

  /** The slots of `dbQuery`'s query template, in text order: each holds no
      clause (Go's empty string) or one. GROUP BY and ORDER BY are fixed. */
  function Slots(o: SearchOptions): (ps: seq<seq<Clause>>)
    ensures |ps| == 7
  {
    [ if o.name.Some? then [NameEquals(o.name.value)] else [],
      if o.date.Some? then [DateWithin(o.date.value)] else [],
      if o.ingredients.Some? && |o.ingredients.value| > 0 then [IngredientIn(QuoteAll(o.ingredients.value))] else [],
      [GroupById],
      [OrderByCreated],
      if o.offset.Some? then [OffsetRows(o.offset.value)] else [],
      if o.limit.Some? then [LimitRows(o.limit.value)] else [] ]
  }

  /** The text of the filled template: the slots one after the other. */
  function Concat(ps: seq<seq<Clause>>): seq<Clause>
    decreases |ps|
  {
    if ps == [] then [] else ps[0] + Concat(ps[1..])
  }

  /** The quoted ingredients of the IN list, in input order. */
  function QuoteAll(xs: seq<string>): (qs: seq<string>)
    ensures |qs| == |xs|
    ensures forall i :: 0 <= i < |xs| ==>
      |qs[i]| == |xs[i]| + 2 && qs[i][0] == '\'' && qs[i][|qs[i]| - 1] == '\''
    ensures forall i :: 0 <= i < |xs| ==> Unquote(qs[i]) == xs[i]
  {
    var qs := seq(|xs|, i requires 0 <= i < |xs| => Quote(xs[i]));
    assert forall i :: 0 <= i < |xs| ==> Unquote(qs[i]) == xs[i] by {
      forall i | 0 <= i < |xs| ensures Unquote(qs[i]) == xs[i] {
        assert qs[i] == "'" + xs[i] + "'";
        assert qs[i][1..|qs[i]| - 1] == xs[i];
      }
    }
    qs
  }

  /** Seven slots, the k-th holding at most one clause, of rank k. */
  predicate Slotted(ps: seq<seq<Clause>>)
  {
    |ps| == 7 && forall k :: 0 <= k < 7 ==> |ps[k]| <= 1 && forall c :: c in ps[k] ==> Rank(c) == k
  }

  lemma ConcatSuffix(ps: seq<seq<Clause>>, k: nat)
    requires k < |ps|
    ensures Concat(ps[k..]) == ps[k] + Concat(ps[k + 1..])
  {
    assert ps[k..][1..] == ps[k + 1..];
  }

  /** Ranks in the k-th slot are k. */
  lemma SlotRanks(ps: seq<seq<Clause>>, k: nat)
    requires Slotted(ps) && k < 7
    ensures forall i :: 0 <= i < |ps[k]| ==> Rank(ps[k][i]) == k
  {
    forall i | 0 <= i < |ps[k]| ensures Rank(ps[k][i]) == k { assert ps[k][i] in ps[k]; }
  }

  /** The template filled from slot k on holds only ranks from k on, in
      text order. */
  lemma {:induction false} SlottedSuffixOrder(ps: seq<seq<Clause>>, k: nat)
    requires Slotted(ps) && k <= 7
    ensures InTextOrder(Concat(ps[k..]))
    ensures forall i :: 0 <= i < |Concat(ps[k..])| ==> Rank(Concat(ps[k..])[i]) >= k
    decreases 7 - k
  {
    if k < 7 {
      SlottedSuffixOrder(ps, k + 1);
      ConcatSuffix(ps, k);
      SlotRanks(ps, k);
      var a, b := ps[k], Concat(ps[k + 1..]);
      forall i, j | 0 <= i < j < |a + b| ensures Rank((a + b)[i]) < Rank((a + b)[j]) {
        if i < |a| {
          assert (a + b)[j] == b[j - |a|];
        } else {
          assert (a + b)[i] == b[i - |a|] && (a + b)[j] == b[j - |a|];
        }
      }
      forall i | 0 <= i < |a + b| ensures Rank((a + b)[i]) >= k {
        if i >= |a| { assert (a + b)[i] == b[i - |a|]; }
      }
    }
  }

  /** One slot in front of a suffix holding ranks above it: rank j is in the
      whole exactly when it is in the slot or in the suffix. */
  lemma SlotInFront(a: seq<Clause>, b: seq<Clause>, k: nat, j: nat)
    requires forall c :: c in a ==> Rank(c) == k
    requires forall i :: 0 <= i < |b| ==> Rank(b[i]) > k
    ensures HasKind(a + b, j) <==> (j == k && a != []) || (j > k && HasKind(b, j))
  {
    if HasKind(a + b, j) {
      var i :| 0 <= i < |a + b| && Rank((a + b)[i]) == j;
      if i >= |a| {
        assert (a + b)[i] == b[i - |a|];
      } else {
        assert (a + b)[i] in a;
      }
    }
    if j == k && a != [] {
      assert (a + b)[0] == a[0];
      assert a[0] in a;
    }
    if j > k && HasKind(b, j) {
      var i :| 0 <= i < |b| && Rank(b[i]) == j;
      assert (a + b)[|a| + i] == b[i];
    }
  }

  /** The template filled from slot k on holds rank j exactly when slot j
      is filled. */
  lemma {:induction false} SlottedSuffixKinds(ps: seq<seq<Clause>>, k: nat)
    requires Slotted(ps) && k <= 7
    ensures forall j :: k <= j < 7 ==> (HasKind(Concat(ps[k..]), j) <==> ps[j] != [])
    decreases 7 - k
  {
    if k < 7 {
      SlottedSuffixKinds(ps, k + 1);
      SlottedSuffixOrder(ps, k + 1);
      ConcatSuffix(ps, k);
      SlotRanks(ps, k);
      var a, b := ps[k], Concat(ps[k + 1..]);
      forall j | k <= j < 7 ensures HasKind(a + b, j) <==> ps[j] != [] {
        SlotInFront(a, b, k, j);
      }
    }
  }

  lemma SlotsSlotted(o: SearchOptions)
    ensures Slotted(Slots(o))
  {
    var ps := Slots(o);
    forall k | 0 <= k < 7 ensures |ps[k]| <= 1 && forall c :: c in ps[k] ==> Rank(c) == k {
    }
  }

  /** `dbQuery`: the filter, grouping, ordering and paging clauses. The
      name clause is there iff a name is set, the date clause iff a date is
      set, the ingredient join iff the ingredient list is set and non-empty,
      GROUP BY and ORDER BY always, OFFSET and LIMIT iff set; in the fixed
      order of the query text. */
  function DbQuery(o: SearchOptions): (q: seq<Clause>)
    ensures InTextOrder(q)
    ensures HasKind(q, 0) <==> o.name.Some?
    ensures HasKind(q, 1) <==> o.date.Some?
    ensures HasKind(q, 2) <==> o.ingredients.Some? && |o.ingredients.value| > 0
    ensures HasKind(q, 3) && HasKind(q, 4)
    ensures HasKind(q, 5) <==> o.offset.Some?
    ensures HasKind(q, 6) <==> o.limit.Some?
  {
    SlotsShape(o);
    Concat(Slots(o))
  }

  /** The filled template: in text order, with rank k exactly when slot k
      is filled. */
  lemma SlotsShape(o: SearchOptions)
    ensures InTextOrder(Concat(Slots(o)))
    ensures forall j :: 0 <= j < 7 ==> (HasKind(Concat(Slots(o)), j) <==> Slots(o)[j] != [])
  {
    var ps := Slots(o);
    SlotsSlotted(o);
    SlottedSuffixOrder(ps, 0);
    SlottedSuffixKinds(ps, 0);
    assert ps[0..] == ps;
  }

  /** What one clause tells about the options. */
  function Note(c: Clause, o: SearchOptions): SearchOptions
  {
    match c
    case NameEquals(n) => o.(name := Some(n))
    case DateWithin(t) => o.(date := Some(t))
    case IngredientIn(qs) => o.(ingredients := Some(seq(|qs|, i requires 0 <= i < |qs| => Unquote(qs[i]))))
    case OffsetRows(n) => o.(offset := Some(n))
    case LimitRows(n) => o.(limit := Some(n))
    case _ => o
  }

  /** Reads the options back from the clauses of a query. */
  function OptionsOf(q: seq<Clause>): (o: SearchOptions)
    decreases |q|
  {
    if q == [] then NoOptions else Note(q[0], OptionsOf(q[1..]))
  }

  /** Reads the options back from the slots k.. of the template. */
  function OptionsOfSlots(ps: seq<seq<Clause>>, k: nat): SearchOptions
    requires k <= |ps|
    decreases |ps| - k
  {
    if k == |ps| then NoOptions
    else if ps[k] == [] then OptionsOfSlots(ps, k + 1)
    else Note(ps[k][0], OptionsOfSlots(ps, k + 1))
  }

  lemma {:induction false} OptionsOfConcat(ps: seq<seq<Clause>>, k: nat)
    requires k <= |ps|
    requires forall j :: 0 <= j < |ps| ==> |ps[j]| <= 1
    ensures OptionsOf(Concat(ps[k..])) == OptionsOfSlots(ps, k)
    decreases |ps| - k
  {
    if k < |ps| {
      OptionsOfConcat(ps, k + 1);
      ConcatSuffix(ps, k);
      var q := Concat(ps[k + 1..]);
      if ps[k] == [] {
        assert ps[k] + q == q;
      } else {
        assert (ps[k] + q)[1..] == q;
      }
    }
  }

  /** The options as the query sees them: an empty ingredient list filters
      nothing, like a missing one. */
  function Normalize(o: SearchOptions): SearchOptions
  {
    if o.ingredients == Some([]) then o.(ingredients := None) else o
  }

  /** The clauses carry every option: reading them back gives the options,
      the ingredients unquoted in their original order. */
  lemma DbQueryReadsBack(o: SearchOptions)
    ensures OptionsOf(DbQuery(o)) == Normalize(o)
  {
    var ps := Slots(o);
    SlotsSlotted(o);
    OptionsOfConcat(ps, 0);
    assert ps[0..] == ps;
    assert OptionsOfSlots(ps, 7) == NoOptions;
    assert OptionsOfSlots(ps, 6) == NoOptions.(limit := o.limit);
    assert OptionsOfSlots(ps, 5) == NoOptions.(offset := o.offset, limit := o.limit);
    assert OptionsOfSlots(ps, 4) == OptionsOfSlots(ps, 5);
    assert OptionsOfSlots(ps, 3) == OptionsOfSlots(ps, 5);
    if ps[2] != [] {
      var xs := o.ingredients.value;
      var qs := QuoteAll(xs);
      assert seq(|qs|, i requires 0 <= i < |qs| => Unquote(qs[i])) == xs;
    }
    assert OptionsOfSlots(ps, 2).ingredients == Normalize(o).ingredients;
  }

  // ---------------------------------------------------------------------
  // The drink and its persistence

  /** The start/end window is not reversed: `End.Before(Start)` does not
      hold, or one of them is missing. */
  predicate WindowOrdered(start: Option<Time>, end: Option<Time>)
  {
    start.None? || end.None? || start.value <= end.value
  }

  const PriceContext: string := "Validation for price failed"
  const BeginContext: string := "Failed initializaing transaction"
  const UuidContext: string := "Failed generating UUID for drink"
  const InsertDrinkContext: string := "Drink insert failed"
  const InsertIngredientsContext: string := "Drink-Ingredient insert failed"
  const MissingIdContext: string := "ID missing for deleting drink"
  const DeleteDrinkContext: string := "Failed deleting from the drinks table"
  const DeleteIngredientsContext: string := "Failed deleting from the drinks-ingredients table"
  const QueryContext: string := "Failed querying drinks"
  const ScanContext: string := "Failed reading a drink row"

  /** The `drinks_ingredients` rows for a drink: one per ingredient, in order. */
  function IngredientRows(id: string, ingredients: seq<string>): (rows: seq<IngredientRow>)
    ensures |rows| == |ingredients|
    ensures forall i :: 0 <= i < |rows| ==> rows[i] == IngredientRow(id, ingredients[i])
  {
    seq(|ingredients|, i requires 0 <= i < |ingredients| => IngredientRow(id, ingredients[i]))
  }

  /** The rows a statement touches all belong to drink `id`. */
  predicate Concerns(s: Stmt, id: string)
  {
    match s
    case InsertDrink(row) => row.id == id
    case InsertIngredients(rows) => forall x :: x in rows ==> x.drinkId == id
    case DeleteDrink(i) => i == id
    case DeleteIngredients(i) => i == id
  }

  /** The statements `Create` issues in its transaction: inserts only, all
      about the new drink; the drink row first, then, only for a non-empty
      ingredient list, one insert holding a row per ingredient. */
  function CreateStatements(id: string, name: string, price: string, start: Option<Time>, end: Option<Time>,
                            ingredients: seq<string>): (ss: seq<Stmt>)
    ensures |ss| == if |ingredients| > 0 then 2 else 1
    ensures forall s :: s in ss ==> (s.InsertDrink? || s.InsertIngredients?) && Concerns(s, id)
    ensures ss[0].InsertDrink? && ss[0].row.id == id
    ensures |ss| == 2 ==>
      && ss[1].InsertIngredients?
      && |ss[1].rows| == |ingredients|
      && forall i :: 0 <= i < |ingredients| ==> ss[1].rows[i].ingredient == ingredients[i]
  {
    [InsertDrink(DrinkRow(id, name, price, start, end))] +
    (if |ingredients| > 0 then [InsertIngredients(IngredientRows(id, ingredients))] else [])
  }

  /** The statements `Delete` issues in its transaction: deletes only, all
      about drink `id`, from `drinks` first and then from `drinks_ingredients`. */
  function DeleteStatements(id: string): (ss: seq<Stmt>)
    ensures |ss| == 2 && ss[0].DeleteDrink? && ss[1].DeleteIngredients?
    ensures forall s :: s in ss ==> Concerns(s, id)
  {
    [DeleteDrink(id), DeleteIngredients(id)]
  }

  /** A row of the search result: the drink's columns and the aggregate of
      its ingredients, None when SQL gives NULL (a drink with no ingredient
      rows). */
  datatype ResultRow = ResultRow(id: string, name: string, price: string, start: Option<Time>, end: Option<Time>,
                                 ingredients: Option<string>)

  /** `Drink`. */
  class Drink {
    var ID: string
    var Name: string
    var Price: string
    var Start: Option<Time>
    var End: Option<Time>
    var Ingredients: seq<string>

    constructor (id: string, name: string, price: string, start: Option<Time>, end: Option<Time>, ingredients: seq<string>)
      ensures ID == id && Name == name && Price == price && Start == start && End == end
      ensures Ingredients == ingredients
    {
      ID := id;
      Name := name;
      Price := price;
      Start := start;
      End := end;
      Ingredients := ingredients;
    }

    /** The drink holds what a result row says, its ingredient aggregate
        split on ','. */
    predicate Holds(row: ResultRow)
      reads this
    {
      row.ingredients.Some? &&
      ID == row.id && Name == row.name && Price == row.price && Start == row.start && End == row.end &&
      Ingredients == Split(row.ingredients.value, ',')
    }

    /** `Validate`: a price failure wins, wrapped; then a reversed window. */
    function Validate(): (r: Option<Error>)
      reads this
      ensures r.None? <==> ValidateMoney(Price).None? && WindowOrdered(Start, End)
      ensures ValidateMoney(Price).Some? ==> r == Some(Wrap(ValidateMoney(Price).value, PriceContext))
      ensures ValidateMoney(Price).None? && !WindowOrdered(Start, End) ==> r == Some(StartEndDate)
    {
      match ValidateMoney(Price)
      case Some(e) => Some(Wrap(e, PriceContext))
      case None =>
        if Start.Some? && End.Some? && End.value < Start.value then Some(StartEndDate) else None
    }

    /** `Create`: `uuid` is what uuid.NewV4 gives (None: it failed) and
        `faults` the steps the database fails. The ID is set from the UUID
        before any insert, and stays set even when a later step fails. */
    method Create(db: Database, uuid: Option<string>, faults: set<Step>) returns (err: Option<Error>)
      modifies this`ID, db
      ensures Begin in faults ==> err == Some(Wrap(DbError, BeginContext)) && db.transactions == old(db.transactions)
      ensures Begin !in faults ==> db.transactions == old(db.transactions) + 1
      ensures Begin !in faults && uuid.None? ==> err == Some(Wrap(UuidError, UuidContext))
      ensures ID == if Begin in faults || uuid.None? then old(ID) else uuid.value
      ensures Begin !in faults && uuid.Some? && Exec(0) in faults ==> err == Some(Wrap(DbError, InsertDrinkContext))
      ensures Begin !in faults && uuid.Some? && Exec(0) !in faults && |Ingredients| > 0 && Exec(1) in faults ==>
        err == Some(Wrap(DbError, InsertIngredientsContext))
      ensures (Begin !in faults && uuid.Some? && Exec(0) !in faults && (|Ingredients| > 0 ==> Exec(1) !in faults) &&
               Commit in faults) ==> err == Some(DbError)
      ensures err.None? <==>
        Begin !in faults && uuid.Some? && Exec(0) !in faults && (|Ingredients| > 0 ==> Exec(1) !in faults) &&
        Commit !in faults
      ensures db.tables ==
        if err.None? then ApplyAll(old(db.tables), CreateStatements(ID, Name, Price, Start, End, Ingredients))
        else old(db.tables)
    {
      var tx, e := db.Begin(Begin in faults);
      if e.Some? {
        return Some(Wrap(e.value, BeginContext));
      }
      if uuid.None? {
        tx.Rollback();
        return Some(Wrap(UuidError, UuidContext));
      }
      ID := uuid.value;
      e := tx.Exec(InsertDrink(DrinkRow(ID, Name, Price, Start, End)), Exec(0) in faults);
      if e.Some? {
        tx.Rollback();
        return Some(Wrap(e.value, InsertDrinkContext));
      }
      if |Ingredients| > 0 {
        var rows: seq<IngredientRow> := [];
        for i := 0 to |Ingredients|
          invariant |rows| == i
          invariant forall k :: 0 <= k < i ==> rows[k] == IngredientRow(ID, Ingredients[k])
        {
          rows := rows + [IngredientRow(ID, Ingredients[i])];
        }
        assert rows == IngredientRows(ID, Ingredients);
        e := tx.Exec(InsertIngredients(rows), Exec(1) in faults);
        if e.Some? {
          tx.Rollback();
          return Some(Wrap(e.value, InsertIngredientsContext));
        }
      }
      assert tx.staged == CreateStatements(ID, Name, Price, Start, End, Ingredients);
      err := tx.Commit(Commit in faults);
      tx.Rollback();
    }

    /** `Delete`: an empty ID is refused before any transaction is begun;
        otherwise both deletes are committed together or not at all. */
    method Delete(db: Database, faults: set<Step>) returns (err: Option<Error>)
      modifies db
      ensures ID == "" ==> err == Some(Wrap(DeleteMissingID, MissingIdContext))
      ensures ID == "" || Begin in faults ==> db.transactions == old(db.transactions)
      ensures ID != "" && Begin !in faults ==> db.transactions == old(db.transactions) + 1
      ensures ID != "" && Begin in faults ==> err == Some(Wrap(DbError, BeginContext))
      ensures ID != "" && Begin !in faults && Exec(0) in faults ==> err == Some(Wrap(DbError, DeleteDrinkContext))
      ensures ID != "" && Begin !in faults && Exec(0) !in faults && Exec(1) in faults ==>
        err == Some(Wrap(DbError, DeleteIngredientsContext))
      ensures (ID != "" && Begin !in faults && Exec(0) !in faults && Exec(1) !in faults && Commit in faults) ==>
        err == Some(DbError)
      ensures err.None? <==>
        ID != "" && Begin !in faults && Exec(0) !in faults && Exec(1) !in faults && Commit !in faults
      ensures db.tables == if err.None? then ApplyAll(old(db.tables), DeleteStatements(ID)) else old(db.tables)
    {
      if ID == "" {
        return Some(Wrap(DeleteMissingID, MissingIdContext));
      }
      var tx, e := db.Begin(Begin in faults);
      if e.Some? {
        return Some(Wrap(e.value, BeginContext));
      }
      e := tx.Exec(DeleteDrink(ID), Exec(0) in faults);
      if e.Some? {
        tx.Rollback();
        return Some(Wrap(e.value, DeleteDrinkContext));
      }
      e := tx.Exec(DeleteIngredients(ID), Exec(1) in faults);
      if e.Some? {
        tx.Rollback();
        return Some(Wrap(e.value, DeleteIngredientsContext));
      }
      err := tx.Commit(Commit in faults);
      tx.Rollback();
    }

    /** The row loop of `Query`: one new drink per row, in row order, until
        a row whose ingredient aggregate is NULL, which Scan cannot read into
        a string; the drinks built so far are returned with the error. */
    static method ScanRows(rows: seq<ResultRow>) returns (drinks: seq<Drink>, err: Option<Error>)
      ensures |drinks| <= |rows|
      ensures forall i :: 0 <= i < |drinks| ==> drinks[i].Holds(rows[i]) && |drinks[i].Ingredients| >= 1
      ensures err.None? <==> |drinks| == |rows|
      ensures err.Some? ==> rows[|drinks|].ingredients.None? && err == Some(Wrap(NullScanError, ScanContext))
      ensures forall i :: 0 <= i < |drinks| ==> fresh(drinks[i])
      ensures forall i, j :: 0 <= i < j < |drinks| ==> drinks[i] != drinks[j]
    {
      drinks := [];
      var i := 0;
      while i < |rows|
        invariant 0 <= i <= |rows| && |drinks| == i
        invariant forall k :: 0 <= k < i ==> drinks[k].Holds(rows[k]) && |drinks[k].Ingredients| >= 1
        invariant forall k :: 0 <= k < i ==> fresh(drinks[k])
        invariant forall k, l :: 0 <= k < l < i ==> drinks[k] != drinks[l]
      {
        var row := rows[i];
        if row.ingredients.None? {
          return drinks, Some(Wrap(NullScanError, ScanContext));
        }
        var d := new Drink(row.id, row.name, row.price, row.start, row.end, Split(row.ingredients.value, ','));
        assert d.Holds(row) && |d.Ingredients| >= 1;
        forall k | 0 <= k < i
          ensures (drinks + [d])[k].Holds(rows[k]) && |(drinks + [d])[k].Ingredients| >= 1
        {
          assert (drinks + [d])[k] == drinks[k];
        }
        drinks := drinks + [d];
        i := i + 1;
      }
      err := None;
    }

    /** `Query`: `answer` gives the rows the database returns for a query
        (None: the query failed); the rows are then read by ScanRows. */
    method Query(o: SearchOptions, answer: seq<Clause> -> Option<seq<ResultRow>>)
      returns (drinks: seq<Drink>, err: Option<Error>)
      ensures answer(DbQuery(o)).None? ==> drinks == [] && err == Some(Wrap(DbError, QueryContext))
      ensures answer(DbQuery(o)).Some? ==>
        var rows := answer(DbQuery(o)).value;
        && |drinks| <= |rows|
        && (forall i :: 0 <= i < |drinks| ==> drinks[i].Holds(rows[i]) && |drinks[i].Ingredients| >= 1)
        && (err.None? <==> |drinks| == |rows|)
        && (err.Some? ==> rows[|drinks|].ingredients.None? && err == Some(Wrap(NullScanError, ScanContext)))
      ensures forall i :: 0 <= i < |drinks| ==> fresh(drinks[i])
      ensures forall i, j :: 0 <= i < j < |drinks| ==> drinks[i] != drinks[j]
    {
      var result := answer(DbQuery(o));
      if result.None? {
        return [], Some(Wrap(DbError, QueryContext));
      }
      drinks, err := ScanRows(result.value);
    }
  }

  // ---------------------------------------------------------------------
  // What committed transactions do to the tables

  /** The ids in `drinks`. */
  function DrinkIds(t: Tables): set<string>
  {
    set r | r in t.drinks :: r.id
  }

  /** Every `drinks_ingredients` row belongs to a drink in `drinks`. */
  predicate NoOrphans(t: Tables)
  {
    forall x :: x in t.drinkIngredients ==> x.drinkId in DrinkIds(t)
  }

  /** The ingredients recorded for a drink, in row order: what the search
      query aggregates for it. */
  function IngredientsOf(rows: seq<IngredientRow>, id: string): seq<string>
  {
    if rows == [] then []
    else (if rows[0].drinkId == id then [rows[0].ingredient] else []) + IngredientsOf(rows[1..], id)
  }

  /** A committed Create appends the drink row and one ingredient row per
      ingredient. */
  lemma CreateEffect(t: Tables, id: string, name: string, price: string, start: Option<Time>, end: Option<Time>,
                     ingredients: seq<string>)
    ensures ApplyAll(t, CreateStatements(id, name, price, start, end, ingredients)) ==
      Tables(t.drinks + [DrinkRow(id, name, price, start, end)],
             t.drinkIngredients + IngredientRows(id, ingredients))
  {
    var row := DrinkRow(id, name, price, start, end);
    var t1 := Apply(t, InsertDrink(row));
    if |ingredients| > 0 {
      var ss := CreateStatements(id, name, price, start, end, ingredients);
      assert ss[1..] == [InsertIngredients(IngredientRows(id, ingredients))];
      assert ApplyAll(t1, ss[1..]) == ApplyAll(Apply(t1, ss[1]), []);
    } else {
      assert IngredientRows(id, ingredients) == [];
      assert t.drinkIngredients + [] == t.drinkIngredients;
    }
  }

  /** A committed Delete removes the drink's rows from both tables, and
      only those. */
  lemma DeleteEffect(t: Tables, id: string)
    ensures ApplyAll(t, DeleteStatements(id)) ==
      Tables(WithoutDrink(t.drinks, id), WithoutIngredientsOf(t.drinkIngredients, id))
    ensures id !in DrinkIds(ApplyAll(t, DeleteStatements(id)))
    ensures IngredientsOf(ApplyAll(t, DeleteStatements(id)).drinkIngredients, id) == []
  {
    var ss := DeleteStatements(id);
    var t1 := Apply(t, DeleteDrink(id));
    assert ss[1..] == [DeleteIngredients(id)];
    assert ApplyAll(t1, ss[1..]) == ApplyAll(Apply(t1, ss[1]), []);
    var t2 := ApplyAll(t, ss);
    assert t2 == Tables(WithoutDrink(t.drinks, id), WithoutIngredientsOf(t.drinkIngredients, id));
    NoIngredientsOf(t2.drinkIngredients, id);
  }

  lemma {:induction false} NoIngredientsOf(rows: seq<IngredientRow>, id: string)
    requires forall x :: x in rows ==> x.drinkId != id
    ensures IngredientsOf(rows, id) == []
  {
    if rows != [] {
      assert rows[0] in rows;
      assert forall x :: x in rows[1..] ==> x in rows;
      NoIngredientsOf(rows[1..], id);
    }
  }

  lemma {:induction false} IngredientsOfAppend(a: seq<IngredientRow>, b: seq<IngredientRow>, id: string)
    ensures IngredientsOf(a + b, id) == IngredientsOf(a, id) + IngredientsOf(b, id)
  {
    if a == [] {
      assert a + b == b;
    } else {
      assert (a + b)[0] == a[0];
      assert (a + b)[1..] == a[1..] + b;
      IngredientsOfAppend(a[1..], b, id);
    }
  }

  lemma {:induction false} IngredientsOfRows(id: string, xs: seq<string>)
    ensures IngredientsOf(IngredientRows(id, xs), id) == xs
  {
    if xs != [] {
      assert IngredientRows(id, xs)[1..] == IngredientRows(id, xs[1..]);
      IngredientsOfRows(id, xs[1..]);
    }
  }

  /** Create keeps every ingredient row attached to a drink. */
  lemma CreatePreservesNoOrphans(t: Tables, id: string, name: string, price: string, start: Option<Time>,
                                 end: Option<Time>, ingredients: seq<string>)
    requires NoOrphans(t)
    ensures NoOrphans(ApplyAll(t, CreateStatements(id, name, price, start, end, ingredients)))
  {
    CreateEffect(t, id, name, price, start, end, ingredients);
    var row := DrinkRow(id, name, price, start, end);
    var t2 := ApplyAll(t, CreateStatements(id, name, price, start, end, ingredients));
    assert row in t2.drinks;
    forall x | x in t2.drinkIngredients
      ensures x.drinkId in DrinkIds(t2)
    {
      if x in t.drinkIngredients {
        var r :| r in t.drinks && r.id == x.drinkId;
        assert r in t2.drinks;
      } else {
        assert x in IngredientRows(id, ingredients);
        assert x.drinkId == row.id;
      }
    }
  }

  /** Delete keeps every ingredient row attached to a drink. */
  lemma DeletePreservesNoOrphans(t: Tables, id: string)
    requires NoOrphans(t)
    ensures NoOrphans(ApplyAll(t, DeleteStatements(id)))
  {
    DeleteEffect(t, id);
    var t2 := ApplyAll(t, DeleteStatements(id));
    forall x | x in t2.drinkIngredients
      ensures x.drinkId in DrinkIds(t2)
    {
      var r :| r in t.drinks && r.id == x.drinkId;
      assert r in t2.drinks;
    }
  }

  /** Deleting an id that is in neither table changes nothing. */
  lemma DeleteAbsentIsNoop(t: Tables, id: string)
    requires NoOrphans(t) && id !in DrinkIds(t)
    ensures ApplyAll(t, DeleteStatements(id)) == t
  {
    DeleteEffect(t, id);
    assert forall x :: x in t.drinks ==> x.id in DrinkIds(t);
    WithoutDrinkAbsent(t.drinks, id);
    WithoutIngredientsAbsent(t.drinkIngredients, id);
  }

  /** Deleting a drink removes every ingredient row Create made for it. */
  lemma {:induction false} IngredientRowsRemoved(id: string, xs: seq<string>)
    ensures WithoutIngredientsOf(IngredientRows(id, xs), id) == []
  {
    if xs != [] {
      assert IngredientRows(id, xs)[1..] == IngredientRows(id, xs[1..]);
      IngredientRowsRemoved(id, xs[1..]);
    }
  }

  /** Creating a drink under a fresh id and then deleting that id gives
      back the tables as they were. */
  lemma CreateThenDeleteRestores(t: Tables, id: string, name: string, price: string, start: Option<Time>,
                                 end: Option<Time>, ingredients: seq<string>)
    requires NoOrphans(t) && id !in DrinkIds(t)
    ensures ApplyAll(ApplyAll(t, CreateStatements(id, name, price, start, end, ingredients)), DeleteStatements(id)) == t
  {
    var row := DrinkRow(id, name, price, start, end);
    var rows := IngredientRows(id, ingredients);
    CreateEffect(t, id, name, price, start, end, ingredients);
    var t1 := Tables(t.drinks + [row], t.drinkIngredients + rows);
    DeleteEffect(t1, id);
    assert forall x :: x in t.drinks ==> x.id in DrinkIds(t);
    assert WithoutDrink(t1.drinks, id) == t.drinks by {
      WithoutDrinkAppend(t.drinks, [row], id);
      WithoutDrinkAbsent(t.drinks, id);
      assert WithoutDrink([row], id) == [];
      assert t.drinks + [] == t.drinks;
    }
    assert WithoutIngredientsOf(t1.drinkIngredients, id) == t.drinkIngredients by {
      WithoutIngredientsAppend(t.drinkIngredients, rows, id);
      WithoutIngredientsAbsent(t.drinkIngredients, id);
      IngredientRowsRemoved(id, ingredients);
      assert t.drinkIngredients + [] == t.drinkIngredients;
    }
  }

  /** After a committed Create under a fresh id, the ingredients recorded
      for that id are exactly the drink's ingredient list, in order. */
  lemma CreatedIngredients(t: Tables, id: string, name: string, price: string, start: Option<Time>,
                           end: Option<Time>, ingredients: seq<string>)
    requires NoOrphans(t) && id !in DrinkIds(t)
    ensures IngredientsOf(ApplyAll(t, CreateStatements(id, name, price, start, end, ingredients)).drinkIngredients, id)
      == ingredients
  {
    CreateEffect(t, id, name, price, start, end, ingredients);
    IngredientsOfAppend(t.drinkIngredients, IngredientRows(id, ingredients), id);
    NoIngredientsOf(t.drinkIngredients, id);
    IngredientsOfRows(id, ingredients);
  }
}
