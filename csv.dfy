/** The CSV import/export pipeline of the front end: header normalisation, the
    per-entity schema tables (column maps, validators, transformers and
    templates), row validation, column mapping, the reverse mapping used for
    export, and the preview that composes validation and mapping. */
module Csv {
  import opened JsBuiltins

  /** A parsed CSV record: normalised header name to cell text. */
  type Row = map<string, string>

  /** A column map in `Object.entries` order: (CSV column, database field) pairs. */
  type ColumnMap = seq<(string, string)>

  /** A custom validator receives the cell and the whole row. */
  type Validator = (string, Row) -> bool

  /** The five kinds of record that can be imported and exported. */
  datatype Entity = Customers | SpareParts | Inventory | Devices | MaintenanceRequests

  /** A value of a mapped record. `Decimal`, `CalendarDate` and `Json` stand
      for the results of `parseFloat(source) || 0`, of
      `new Date(source).toISOString().split('T')[0]` and of
      `JSON.parse(source)`, which the model does not compute. */
  datatype Value =
    | Text(text: string)
    | Flag(flag: bool)
    | Integer(number: int)
    | Null
    | Decimal(source: string)
    | CalendarDate(source: string)
    | Json(source: string)
    | EmptyList

  /** The two questions the validators put to floating-point and date parsing:
      is `parseFloat(v)` a number that is at least 0, and is `Date.parse(v)` a number. */
  datatype Oracles = Oracles(floatIsNonNegative: string -> bool, dateParses: string -> bool)

  // ---------------------------------------------------------------------
  // Header normalisation
  // ---------------------------------------------------------------------

  predicate NoSpace(s: string) {
    forall i :: 0 <= i < |s| ==> !IsSpace(s[i])
  }

  predicate NoUpper(s: string) {
    forall i :: 0 <= i < |s| ==> !('A' <= s[i] <= 'Z')
  }

  /** `s.replace(/\s+/g, '_')`: every maximal run of white space becomes one
      underscore; `inRun` says whether the character before `s` was white space. */
  function CollapseSpaces(s: string, inRun: bool): (r: string)
    ensures NoSpace(r)
    ensures NoUpper(s) ==> NoUpper(r)
    ensures NoSpace(s) ==> r == s
  {
    if s == [] then []
    else if IsSpace(s[0]) then
      if inRun then CollapseSpaces(s[1..], true) else "_" + CollapseSpaces(s[1..], true)
    else
      [s[0]] + CollapseSpaces(s[1..], false)
  }

  /** The `transformHeader` option given to the CSV parser:
      `header.trim().toLowerCase().replace(/\s+/g, '_')`. */
  function TransformHeader(header: string): (r: string)
    ensures NoSpace(r) && NoUpper(r)
  {
    var lowered := Lower(Trim(header));
    assert NoUpper(lowered);
    CollapseSpaces(lowered, false)
  }

  /** Normalising a header that is already normalised changes nothing. */
  lemma TransformHeaderIdempotent(header: string)
    ensures TransformHeader(TransformHeader(header)) == TransformHeader(header)
  {
    var r := TransformHeader(header);
    TrimNoSpace(r);
    LowerNoUpper(r);
    calc {
      TransformHeader(r);
      CollapseSpaces(Lower(Trim(r)), false);
      CollapseSpaces(r, false);
      r;
    }
  }

  /** The length of the run of characters other than white space at the start of `s`. */
  function WordLength(s: string): (n: nat)
    ensures n <= |s|
    ensures forall i :: 0 <= i < n ==> !IsSpace(s[i])
    ensures n < |s| ==> IsSpace(s[n])
  {
    if |s| > 0 && !IsSpace(s[0]) then 1 + WordLength(s[1..]) else 0
  }

  /** The words of `s`: its maximal runs of characters other than white
      space, in order. White space is skipped one character at a time; a
      word is taken whole. */
  function Words(s: string): seq<string>
    decreases |s|
  {
    if s == [] then []
    else if IsSpace(s[0]) then Words(s[1..])
    else
      var n := WordLength(s);
      [s[..n]] + Words(s[n..])
  }

  /** Every word is a non-empty run without white space. */
  lemma {:induction false} WordsAreRuns(s: string)
    ensures forall k :: 0 <= k < |Words(s)| ==> Words(s)[k] != [] && NoSpace(Words(s)[k])
    decreases |s|
  {
    if s != [] {
      if IsSpace(s[0]) {
        WordsAreRuns(s[1..]);
      } else {
        var n := WordLength(s);
        WordsAreRuns(s[n..]);
        FirstWordIsRun(s);
        ConsRun(s[..n], Words(s[n..]));
      }
    }
  }

  lemma FirstWordIsRun(t: string)
    requires t != [] && !IsSpace(t[0])
    ensures t[..WordLength(t)] != [] && NoSpace(t[..WordLength(t)])
  {
  }

  lemma ConsRun(w: string, ws: seq<string>)
    requires w != [] && NoSpace(w)
    requires forall k :: 0 <= k < |ws| ==> ws[k] != [] && NoSpace(ws[k])
    ensures forall k :: 0 <= k < |[w] + ws| ==> ([w] + ws)[k] != [] && NoSpace(([w] + ws)[k])
  {
    assert forall k :: 1 <= k < |[w] + ws| ==> ([w] + ws)[k] == ws[k - 1];
  }

  /** What `transformHeader` makes of a header: its words, lower-cased and
      joined by one underscore each, whatever white space stood around or
      between them. */
  lemma TransformHeaderJoinsWords(header: string)
    ensures TransformHeader(header) == Join(Words(Lower(header)), "_")
  {
    var lowered := Lower(Trim(header));
    CollapseSpacesJoins(lowered, false);
    assert "" + Join(Words(lowered), "_") == Join(Words(lowered), "_");
    WordsIgnoreOuterSpace(header);
  }

  /** A header of two words: surrounding white space is dropped, the gap
      between the words, however wide, becomes one underscore, and each
      word is lower-cased. */
  lemma TwoWordHeader(lead: string, a: string, gap: string, b: string, trail: string)
    requires AllSpace(lead) && AllSpace(gap) && AllSpace(trail) && gap != []
    requires a != [] && NoSpace(a) && b != [] && NoSpace(b)
    ensures TransformHeader(lead + a + gap + b + trail) == Lower(a) + "_" + Lower(b)
  {
    var h := lead + a + gap + b + trail;
    TransformHeaderJoinsWords(h);
    LowerOfPieces(lead, a, gap, b, trail);
    LowerKeepsSpace(lead);
    LowerKeepsSpace(gap);
    LowerKeepsSpace(trail);
    LowerKeepsWord(a);
    LowerKeepsWord(b);
    WordsOfTwo(Lower(lead), Lower(a), Lower(gap), Lower(b), Lower(trail));
    JoinCons(Lower(a), [Lower(b)], "_");
  }

  /** The header " Part  Code ", typed with stray spaces (written in its
      pieces), names the inventory's `part_code` column. */
  lemma PartCodeHeader()
    ensures TransformHeader(" " + "Part" + "  " + "Code" + " ") == "part_code"
  {
    PartCodePieces();
    TwoWordHeader(" ", "Part", "  ", "Code", " ");
  }

  lemma PartCodePieces()
    ensures AllSpace(" ") && AllSpace("  ") && NoSpace("Part") && NoSpace("Code")
    ensures Lower("Part") + "_" + Lower("Code") == "part_code"
  {
  }

  lemma LowerOfPieces(lead: string, a: string, gap: string, b: string, trail: string)
    ensures Lower(lead + a + gap + b + trail)
         == Lower(lead) + (Lower(a) + (Lower(gap) + (Lower(b) + Lower(trail))))
  {
    Regroup(lead, a, gap, b, trail);
    LowerAppend(lead, a + (gap + (b + trail)));
    LowerAppend(a, gap + (b + trail));
    LowerAppend(gap, b + trail);
    LowerAppend(b, trail);
  }

  lemma Regroup<T>(p: seq<T>, q: seq<T>, r: seq<T>, s: seq<T>, t: seq<T>)
    ensures p + q + r + s + t == p + (q + (r + (s + t)))
  {
  }

  lemma LowerKeepsSpace(s: string)
    requires AllSpace(s)
    ensures AllSpace(Lower(s)) && |Lower(s)| == |s|
  {
  }

  lemma LowerKeepsWord(s: string)
    requires s != [] && NoSpace(s)
    ensures Lower(s) != [] && NoSpace(Lower(s))
  {
  }

  /** Two words with white space around and between them. */
  lemma WordsOfTwo(lead: string, a: string, gap: string, b: string, trail: string)
    requires AllSpace(lead) && AllSpace(gap) && AllSpace(trail) && gap != []
    requires a != [] && NoSpace(a) && b != [] && NoSpace(b)
    ensures Words(lead + (a + (gap + (b + trail)))) == [a, b]
  {
    WordsSkipLeadingSpace(lead, a + (gap + (b + trail)));
    WordsOfWordThen(a, gap + (b + trail));
    WordsSkipLeadingSpace(gap, b + trail);
    WordsOfWordThen(b, trail);
    WordsOfSpace(trail);
  }

  /** A word followed by white space or by nothing is the first word. */
  lemma WordsOfWordThen(w: string, rest: string)
    requires w != [] && NoSpace(w) && (rest == [] || IsSpace(rest[0]))
    ensures Words(w + rest) == [w] + Words(rest)
  {
    assert WordLength(w) == |w|;
    WordLengthAppend(w, rest);
    SlicesOfAppend(w, rest, |w|);
  }

  /** White space alone holds no word. */
  lemma {:induction false} WordsOfSpace(s: string)
    requires AllSpace(s)
    ensures Words(s) == []
    decreases |s|
  {
    if s != [] {
      WordsOfSpace(s[1..]);
    }
  }

  /** A string that ends in something other than white space holds a word. */
  lemma {:induction false} WordsNonEmpty(s: string)
    requires s != [] && !IsSpace(s[|s| - 1])
    ensures Words(s) != []
    decreases |s|
  {
    if IsSpace(s[0]) {
      WordsNonEmpty(s[1..]);
    }
  }

  /** Collapsing the white space of a string that does not end in white
      space gives its words joined by one underscore each, behind one more
      underscore when the string starts a new run of white space. */
  lemma {:induction false} CollapseSpacesJoins(s: string, inRun: bool)
    requires s == [] || !IsSpace(s[|s| - 1])
    ensures CollapseSpaces(s, inRun)
         == (if s != [] && IsSpace(s[0]) && !inRun then "_" else "") + Join(Words(s), "_")
    decreases |s|
  {
    if s != [] && IsSpace(s[0]) {
      CollapseSpacesJoins(s[1..], true);
      var joined := Join(Words(s[1..]), "_");
      assert "" + joined == joined;
    } else if s != [] {
      var n := WordLength(s);
      var rest := s[n..];
      CollapseWord(s, n, inRun);
      if rest == [] {
        assert s[..n] == s;
        assert s + "" == s;
      } else {
        CollapseSpacesJoins(rest, false);
        WordsNonEmpty(rest);
        JoinCons(s[..n], Words(rest), "_");
      }
    }
  }

  /** A word at the front is copied as it stands. */
  lemma {:induction false} CollapseWord(s: string, n: nat, inRun: bool)
    requires 0 < n <= |s| && forall i :: 0 <= i < n ==> !IsSpace(s[i])
    ensures CollapseSpaces(s, inRun) == s[..n] + CollapseSpaces(s[n..], false)
    decreases n
  {
    var rest := CollapseSpaces(s[n..], false);
    if n > 1 {
      calc {
        CollapseSpaces(s, inRun);
        [s[0]] + CollapseSpaces(s[1..], false);
        { CollapseWord(s[1..], n - 1, false);
          assert s[1..][n - 1..] == s[n..]; }
        [s[0]] + (s[1..][..n - 1] + rest);
        { assert s[..n] == [s[0]] + s[1..][..n - 1]; }
        s[..n] + rest;
      }
    } else {
      assert s[..1] == [s[0]] && s[1..] == s[n..];
    }
  }

  /** White space in front of the words is no word. */
  lemma {:induction false} WordsSkipLeadingSpace(a: string, b: string)
    requires AllSpace(a)
    ensures Words(a + b) == Words(b)
    decreases |a|
  {
    if a != [] {
      assert (a + b)[1..] == a[1..] + b;
      WordsSkipLeadingSpace(a[1..], b);
    } else {
      assert a + b == b;
    }
  }

  lemma {:induction false} WordLengthAppend(t: string, x: string)
    requires WordLength(t) < |t| || x == [] || IsSpace(x[0])
    ensures WordLength(t + x) == WordLength(t)
    decreases |t|
  {
    if t == [] {
      assert t + x == x;
    } else if !IsSpace(t[0]) {
      assert (t + x)[1..] == t[1..] + x;
      WordLengthAppend(t[1..], x);
    }
  }

  /** White space behind the words is no word. */
  lemma {:induction false} WordsDropTrailingSpace(s: string, x: string)
    requires AllSpace(x)
    ensures Words(s + x) == Words(s)
    decreases |s|
  {
    if s == [] {
      assert s + x == x;
      WordsOfSpace(x);
    } else if IsSpace(s[0]) {
      assert (s + x)[1..] == s[1..] + x;
      WordsDropTrailingSpace(s[1..], x);
    } else {
      var n := WordLength(s);
      WordLengthAppend(s, x);
      SlicesOfAppend(s, x, n);
      WordsDropTrailingSpace(s[n..], x);
    }
  }

  lemma SlicesOfAppend<T>(t: seq<T>, x: seq<T>, n: nat)
    requires n <= |t|
    ensures (t + x)[..n] == t[..n] && (t + x)[n..] == t[n..] + x
  {
  }

  /** Trimming before lower-casing changes no word. */
  lemma WordsIgnoreOuterSpace(header: string)
    ensures Words(Lower(Trim(header))) == Words(Lower(header))
  {
    var front := TrimStart(header);
    calc {
      Words(Lower(TrimEnd(front)));
      { LowerTrimEnd(front); }
      Words(TrimEnd(Lower(front)));
      { WordsOfTrimEnd(Lower(front)); }
      Words(Lower(front));
      { LowerTrimStart(header); }
      Words(TrimStart(Lower(header)));
      { WordsOfTrimStart(Lower(header)); }
      Words(Lower(header));
    }
  }

  lemma {:induction false} WordsOfTrimStart(s: string)
    ensures Words(TrimStart(s)) == Words(s)
    decreases |s|
  {
    if |s| > 0 && IsSpace(s[0]) {
      WordsOfTrimStart(s[1..]);
    }
  }

  lemma {:induction false} WordsOfTrimEnd(s: string)
    ensures Words(TrimEnd(s)) == Words(s)
    decreases |s|
  {
    if |s| > 0 && IsSpace(s[|s| - 1]) {
      var init := s[..|s| - 1];
      WordsOfTrimEnd(init);
      assert s == init + [s[|s| - 1]];
      WordsDropTrailingSpace(init, [s[|s| - 1]]);
    }
  }

  /** Lower-casing leaves white space where it was, so it trims alike. */
  lemma {:induction false} LowerTrimStart(s: string)
    ensures Lower(TrimStart(s)) == TrimStart(Lower(s))
    decreases |s|
  {
    if |s| > 0 {
      LowerSlices(s);
      if IsSpace(s[0]) {
        LowerTrimStart(s[1..]);
      }
    }
  }

  lemma {:induction false} LowerTrimEnd(s: string)
    ensures Lower(TrimEnd(s)) == TrimEnd(Lower(s))
    decreases |s|
  {
    if |s| > 0 {
      LowerSlices(s);
      if IsSpace(s[|s| - 1]) {
        LowerTrimEnd(s[..|s| - 1]);
      }
    }
  }

  lemma LowerSlices(s: string)
    requires |s| > 0
    ensures Lower(s)[1..] == Lower(s[1..]) && Lower(s)[..|s| - 1] == Lower(s[..|s| - 1])
  {
  }

  lemma LowerNoUpper(s: string)
    requires NoUpper(s)
    ensures Lower(s) == s
  {
    assert forall i :: 0 <= i < |s| ==> Lower(s)[i] == s[i];
  }

  // ---------------------------------------------------------------------
  // Entity schema registry
  // ---------------------------------------------------------------------

  /** The key under which each entity appears in the schema tables. */
  function EntityName(e: Entity): (name: string)
    ensures EntityNamed(name) == Some(e)
  {
    match e
    case Customers => "customers"
    case SpareParts => "spare_parts"
    case Inventory => "inventory"
    case Devices => "devices"
    case MaintenanceRequests => "maintenance_requests"
  }

  /** Looking an entity type up in the tables; `None` when there is no entry. */
  function EntityNamed(name: string): Option<Entity> {
    if name == "customers" then Some(Customers)
    else if name == "spare_parts" then Some(SpareParts)
    else if name == "inventory" then Some(Inventory)
    else if name == "devices" then Some(Devices)
    else if name == "maintenance_requests" then Some(MaintenanceRequests)
    else None
  }

  /** `columnMappings`: every entity maps each of its CSV columns to the field of the same name. */
  function ColumnMapping(e: Entity): ColumnMap {
    match e
    case Customers =>
      [("name", "name"), ("phone", "phone"), ("address", "address"), ("type", "type")]
    case SpareParts =>
      [("code", "code"), ("name", "name"), ("price", "price"), ("warranty", "warranty")]
    case Inventory =>
      [("part_code", "part_code"), ("center_name", "center_name"), ("qty_added", "qty_added"),
       ("qty_available", "qty_available"), ("qty_sold", "qty_sold"), ("qty_reserved", "qty_reserved")]
    case Devices =>
      [("customer_phone", "customer_phone"), ("name", "name"), ("serial_number", "serial_number"),
       ("warranty", "warranty"), ("warranty_expiry", "warranty_expiry"), ("accessories", "accessories")]
    case MaintenanceRequests =>
      [("customer_phone", "customer_phone"), ("device_serial", "device_serial"), ("issue", "issue"),
       ("under_warranty", "under_warranty"), ("service_only", "service_only"),
       ("service_fee", "service_fee"), ("service_fee_type", "service_fee_type")]
  }

  /** `columnMappings[entityType] || {}`. */
  function MappingFor(entityName: string): ColumnMap {
    match EntityNamed(entityName)
    case Some(e) => ColumnMapping(e)
    case None => []
  }

  /** `Object.values(mapping)`. */
  function Targets(mapping: ColumnMap): seq<string> {
    seq(|mapping|, j requires 0 <= j < |mapping| => mapping[j].1)
  }

  /** `Object.keys(mapping)`. */
  function Sources(mapping: ColumnMap): seq<string> {
    seq(|mapping|, j requires 0 <= j < |mapping| => mapping[j].0)
  }

  predicate DistinctSources(mapping: ColumnMap) {
    forall i, j :: 0 <= i < j < |mapping| ==> mapping[i].0 != mapping[j].0
  }

  predicate DistinctTargets(mapping: ColumnMap) {
    forall i, j :: 0 <= i < j < |mapping| ==> mapping[i].1 != mapping[j].1
  }

  /** Every shipped column map renames nothing. */
  lemma ColumnMappingIsIdentity(e: Entity)
    ensures forall j :: 0 <= j < |ColumnMapping(e)| ==> ColumnMapping(e)[j].0 == ColumnMapping(e)[j].1
  {
  }

  /** Every shipped column map lists each column once, so it is one-to-one. */
  lemma ColumnMappingIsOneToOne(e: Entity)
    ensures DistinctSources(ColumnMapping(e)) && DistinctTargets(ColumnMapping(e))
  {
    ColumnMappingIsIdentity(e);
    var m := ColumnMapping(e);
    match e
    case Customers => assert DistinctTargets(m);
    case SpareParts => assert DistinctTargets(m);
    case Inventory => assert DistinctTargets(m);
    case Devices => assert DistinctTargets(m);
    case MaintenanceRequests => assert DistinctTargets(m);
  }

  // ---- validators ----

  /** `value && value.trim().length > 0`. */
  predicate Filled(value: string) {
    Trim(value) != ""
  }

  /** `value.replace(/\s/g, '')`. */
  function RemoveSpaces(s: string): (r: string)
    ensures NoSpace(r) && |r| <= |s|
    ensures NoSpace(s) ==> r == s
    ensures |s| == 1 ==> r == (if IsSpace(s[0]) then [] else s)
  {
    if s == [] then []
    else if IsSpace(s[0]) then RemoveSpaces(s[1..])
    else [s[0]] + RemoveSpaces(s[1..])
  }

  /** Removing white space works piece by piece; with the one-character case
      this says the other characters are all kept, in order. */
  lemma {:induction false} RemoveSpacesAppend(a: string, b: string)
    ensures RemoveSpaces(a + b) == RemoveSpaces(a) + RemoveSpaces(b)
  {
    if a != [] {
      assert (a + b)[1..] == a[1..] + b;
      RemoveSpacesAppend(a[1..], b);
    } else {
      assert a + b == b;
    }
  }

  predicate IsDigit(c: char) {
    '0' <= c <= '9'
  }

  /** `/^\+?[1-9]\d{1,14}$/`: an optional plus sign, a digit other than 0, then one to fourteen digits. */
  predicate PhoneShape(s: string) {
    var d := if |s| > 0 && s[0] == '+' then s[1..] else s;
    2 <= |d| <= 15 && '1' <= d[0] <= '9' && forall i :: 1 <= i < |d| ==> IsDigit(d[i])
  }

  /** The phone validator: the pattern is tested after all white space is removed. */
  predicate IsPhone(value: string) {
    PhoneShape(RemoveSpaces(value))
  }

  /** `['true', 'false', true, false].includes(value)` for a string value. */
  predicate IsBooleanText(value: string) {
    value == "true" || value == "false"
  }

  /** `!isNaN(parseInt(value)) && parseInt(value) >= 0`. */
  predicate IsNonNegativeInteger(value: string) {
    match ParseInt(value)
    case Some(n) => n >= 0
    case None => false
  }

  /** `validators[entity]`, in declaration order. */
  function Validators(e: Entity, oracles: Oracles): seq<(string, Validator)> {
    match e
    case Customers => CustomerValidators()
    case SpareParts => SparePartValidators(oracles)
    case Inventory => InventoryValidators()
    case Devices => DeviceValidators(oracles)
    case MaintenanceRequests => RequestValidators(oracles)
  }

  function CustomerValidators(): seq<(string, Validator)> {
    [("name", (v: string, r: Row) => Filled(v)),
     ("phone", (v: string, r: Row) => IsPhone(v)),
     ("type", (v: string, r: Row) => v == "distributor" || v == "consumer")]
  }

  function SparePartValidators(oracles: Oracles): seq<(string, Validator)> {
    [("code", (v: string, r: Row) => Filled(v)),
     ("name", (v: string, r: Row) => Filled(v)),
     ("price", (v: string, r: Row) => oracles.floatIsNonNegative(v)),
     ("warranty", (v: string, r: Row) => IsBooleanText(v))]
  }

  function InventoryValidators(): seq<(string, Validator)> {
    [("part_code", (v: string, r: Row) => Filled(v)),
     ("center_name", (v: string, r: Row) => Filled(v)),
     ("qty_added", (v: string, r: Row) => IsNonNegativeInteger(v)),
     ("qty_available", (v: string, r: Row) => IsNonNegativeInteger(v)),
     ("qty_sold", (v: string, r: Row) => IsNonNegativeInteger(v)),
     ("qty_reserved", (v: string, r: Row) => IsNonNegativeInteger(v))]
  }

  function DeviceValidators(oracles: Oracles): seq<(string, Validator)> {
    [("customer_phone", (v: string, r: Row) => IsPhone(v)),
     ("name", (v: string, r: Row) => Filled(v)),
     ("serial_number", (v: string, r: Row) => Filled(v)),
     ("warranty", (v: string, r: Row) => IsBooleanText(v)),
     ("warranty_expiry", (v: string, r: Row) => v == "" || oracles.dateParses(v))]
  }

  function RequestValidators(oracles: Oracles): seq<(string, Validator)> {
    [("customer_phone", (v: string, r: Row) => IsPhone(v)),
     ("device_serial", (v: string, r: Row) => Filled(v)),
     ("issue", (v: string, r: Row) => Filled(v)),
     ("under_warranty", (v: string, r: Row) => IsBooleanText(v)),
     ("service_only", (v: string, r: Row) => IsBooleanText(v)),
     ("service_fee", (v: string, r: Row) => oracles.floatIsNonNegative(v)),
     ("service_fee_type", (v: string, r: Row) => v == "free" || v == "paid")]
  }

  /** `validators[entityType] || {}`. */
  function ValidatorsFor(entityName: string, oracles: Oracles): seq<(string, Validator)> {
    match EntityNamed(entityName)
    case Some(e) => Validators(e, oracles)
    case None => []
  }

  // ---- transformers ----

  /** The mapped row as values, before any field is coerced (the `...row` spread). */
  function Lift(row: Row): map<string, Value> {
    map k | k in row :: Text(row[k])
  }

  /** `row.k === 'true' || row.k === true`. */
  function BooleanField(row: Row, k: string): Value {
    Flag(k in row && row[k] == "true")
  }

  /** `parseInt(row.k) || 0`; `parseInt(undefined)` is NaN. */
  function IntegerField(row: Row, k: string): Value {
    Integer(if k in row && ParseInt(row[k]).Some? then ParseInt(row[k]).value else 0)
  }

  /** `parseFloat(row.k) || 0`; an absent field parses like the empty string, to NaN. */
  function DecimalField(row: Row, k: string): Value {
    Decimal(if k in row then row[k] else "")
  }

  /** `row.k || fallback`. */
  function TextOr(row: Row, k: string, fallback: string): Value {
    Text(if k in row && row[k] != "" then row[k] else fallback)
  }

  /** The fields each entity's transformer rewrites. */
  function CoercedFields(e: Entity): set<string> {
    match e
    case Customers => {"type"}
    case SpareParts => {"price", "warranty"}
    case Inventory => {"qty_added", "qty_available", "qty_sold", "qty_reserved"}
    case Devices => {"warranty", "warranty_expiry", "accessories"}
    case MaintenanceRequests => {"under_warranty", "service_only", "service_fee", "service_fee_type"}
  }

  /** `transformers[entity](mapped)`: the mapped row spread, with the entity's fields coerced. */
  function Transform(e: Entity, mapped: Row, raw: Row): map<string, Value> {
    var base := Lift(mapped);
    match e
    case Customers =>
      base["type" := TextOr(mapped, "type", "consumer")]
    case SpareParts =>
      base["price" := DecimalField(mapped, "price")]["warranty" := BooleanField(mapped, "warranty")]
    case Inventory =>
      base["qty_added" := IntegerField(mapped, "qty_added")]
          ["qty_available" := IntegerField(mapped, "qty_available")]
          ["qty_sold" := IntegerField(mapped, "qty_sold")]
          ["qty_reserved" := IntegerField(mapped, "qty_reserved")]
    case Devices =>
      base["warranty" := BooleanField(mapped, "warranty")]
          ["warranty_expiry" :=
             if "warranty_expiry" in mapped && mapped["warranty_expiry"] != ""
             then CalendarDate(mapped["warranty_expiry"]) else Null]
          ["accessories" :=
             if "accessories" in mapped && mapped["accessories"] != ""
             then Json(mapped["accessories"]) else EmptyList]
    case MaintenanceRequests =>
      base["under_warranty" := BooleanField(mapped, "under_warranty")]
          ["service_only" := BooleanField(mapped, "service_only")]
          ["service_fee" := DecimalField(mapped, "service_fee")]
          ["service_fee_type" := TextOr(mapped, "service_fee_type", "free")]
  }

  /** A transformer keeps every field it does not coerce, as text, and adds
      each coerced field whether or not the row had it. */
  lemma TransformSpreadsRow(e: Entity, mapped: Row, raw: Row)
    ensures Transform(e, mapped, raw).Keys == mapped.Keys + CoercedFields(e)
    ensures forall k :: k in mapped && k !in CoercedFields(e) ==> Transform(e, mapped, raw)[k] == Text(mapped[k])
  {
  }

  /** A customer's `type` falls back to "consumer" when empty or absent. */
  lemma CustomerTypeDefault(mapped: Row, raw: Row)
    ensures Transform(Customers, mapped, raw)["type"]
      == Text(if "type" in mapped && mapped["type"] != "" then mapped["type"] else "consumer")
  {
  }

  /** A warranty flag is true only for the text "true". */
  lemma WarrantyIsFlag(e: Entity, mapped: Row, raw: Row)
    requires e == SpareParts || e == Devices
    ensures Transform(e, mapped, raw)["warranty"] == Flag("warranty" in mapped && mapped["warranty"] == "true")
  {
  }

  /** Every inventory quantity comes out an integer: what `parseInt` reads,
      or 0 when it reads nothing or the field is absent. */
  lemma InventoryQuantitiesAreIntegers(mapped: Row, raw: Row, k: string)
    requires k in CoercedFields(Inventory)
    ensures var r := Transform(Inventory, mapped, raw);
      && r[k].Integer?
      && (k in mapped && ParseInt(mapped[k]).Some? ==> r[k].number == ParseInt(mapped[k]).value)
      && (k !in mapped || ParseInt(mapped[k]).None? ==> r[k].number == 0)
  {
    var r := Transform(Inventory, mapped, raw);
    assert r[k] == IntegerField(mapped, k);
  }

  /** A maintenance request's two flags are true only for the text "true",
      and its fee type is "free" unless a non-empty other value was given. */
  lemma MaintenanceRequestDefaults(mapped: Row, raw: Row)
    ensures var r := Transform(MaintenanceRequests, mapped, raw);
      && r["under_warranty"] == Flag("under_warranty" in mapped && mapped["under_warranty"] == "true")
      && r["service_only"] == Flag("service_only" in mapped && mapped["service_only"] == "true")
      && r["service_fee_type"].Text?
      && (r["service_fee_type"].text == "free" <==>
            !("service_fee_type" in mapped && mapped["service_fee_type"] != "")
            || mapped["service_fee_type"] == "free")
  {
  }

  // ---- templates ----

  /** The one example row `generateCSVTemplate` offers per entity. */
  function Template(e: Entity): Row {
    match e
    case Customers =>
      map["name" := "John Doe", "phone" := "+966501234567", "address" := "Riyadh, Saudi Arabia",
          "type" := "consumer"]
    case SpareParts =>
      map["code" := "SP001", "name" := "Samsung Galaxy S21 Screen", "price" := "150.00",
          "warranty" := "true"]
    case Inventory =>
      map["part_code" := "SP001", "center_name" := "Main Service Center", "qty_added" := "50",
          "qty_available" := "45", "qty_sold" := "5", "qty_reserved" := "0"]
    case Devices =>
      map["customer_phone" := "+966501234567", "name" := "Samsung Galaxy S21",
          "serial_number" := "SN-S21-001", "warranty" := "true", "warranty_expiry" := "2024-12-31",
          "accessories" := "[\"charger\", \"earphones\", \"case\"]"]
    case MaintenanceRequests =>
      map["customer_phone" := "+966501234567", "device_serial" := "SN-S21-001",
          "issue" := "Screen cracked after drop", "under_warranty" := "false",
          "service_only" := "false", "service_fee" := "0", "service_fee_type" := "free"]
  }

  /** `generateCSVTemplate(entityType)`: `templates[entityType] || []`. A known
      entity gets one row holding exactly the columns its map reads, so the row
      passes the missing-columns check; the customers and inventory rows pass
      validation outright. An unknown name gets no row. */
  function GenerateCsvTemplate(entityName: string): (rows: seq<Row>)
    ensures EntityNamed(entityName).None? ==> rows == []
    ensures EntityNamed(entityName).Some? ==>
      var mapping := ColumnMapping(EntityNamed(entityName).value);
      && |rows| == 1
      && (forall k :: k in rows[0] <==> k in Sources(mapping))
      && Missing(Targets(mapping), rows[0].Keys) == []
    ensures EntityNamed(entityName) == Some(Customers) ==>
      Problems(rows, Targets(ColumnMapping(Customers)), CustomerValidators()) == []
    ensures EntityNamed(entityName) == Some(Inventory) ==>
      Problems(rows, Targets(ColumnMapping(Inventory)), InventoryValidators()) == []
  {
    match EntityNamed(entityName)
    case Some(e) =>
      TemplateHasMappedColumns(e);
      TemplateHasRequiredColumns(e);
      CustomerTemplatePasses();
      InventoryTemplatePasses();
      [Template(e)]
    case None => []
  }

  /** A template row holds every field its entity's validation requires. */
  lemma TemplateHasRequiredColumns(e: Entity)
    ensures Missing(Targets(ColumnMapping(e)), Template(e).Keys) == []
  {
    TemplateHasMappedColumns(e);
    ColumnMappingIsIdentity(e);
    assert forall c :: c in Targets(ColumnMapping(e)) ==> c in Template(e).Keys;
    MissingNone(Targets(ColumnMapping(e)), Template(e).Keys);
  }

  /** The customers template passes the customers' validators. */
  lemma CustomerTemplatePasses()
    ensures Problems([Template(Customers)], Targets(ColumnMapping(Customers)), CustomerValidators()) == []
  {
    var oracles := Oracles(_ => true, _ => true);
    CustomerTemplateIsValid(oracles);
    CustomerValidatorsChosen(oracles);
  }

  /** A template has exactly the columns its entity's map reads. */
  lemma TemplateHasMappedColumns(e: Entity)
    ensures forall k :: k in Template(e) <==> k in Sources(ColumnMapping(e))
  {
    var cols := Sources(ColumnMapping(e));
    match e
    case Customers =>
      assert cols == ["name", "phone", "address", "type"];
    case SpareParts =>
      assert cols == ["code", "name", "price", "warranty"];
    case Inventory =>
      assert cols == ["part_code", "center_name", "qty_added", "qty_available", "qty_sold", "qty_reserved"];
    case Devices =>
      assert cols == ["customer_phone", "name", "serial_number", "warranty", "warranty_expiry", "accessories"];
    case MaintenanceRequests =>
      assert cols == ["customer_phone", "device_serial", "issue", "under_warranty", "service_only",
                      "service_fee", "service_fee_type"];
  }

  // ---------------------------------------------------------------------
  // Validation
  // ---------------------------------------------------------------------

  /** One finding of `validateCSVData`; row numbers are 1-based. */
  datatype Problem =
    | NoData
    | MissingColumns(columns: seq<string>)
    | Required(row: nat, column: string)
    | Invalid(row: nat, column: string)

  /** The error text the source pushes for each finding. */
  function Message(p: Problem): string {
    match p
    case NoData => "No data found in CSV file"
    case MissingColumns(cs) => "Missing required columns: " + Join(cs, ", ")
    case Required(n, c) => "Row " + NatToString(n) + ": " + c + " is required"
    case Invalid(n, c) => "Row " + NatToString(n) + ": Invalid " + c + " value"
  }

  function Messages(ps: seq<Problem>): seq<string> {
    if ps == [] then [] else Messages(ps[..|ps| - 1]) + [Message(ps[|ps| - 1])]
  }

  lemma {:induction false} MessagesLength(ps: seq<Problem>)
    ensures |Messages(ps)| == |ps|
  {
    if ps != [] { MessagesLength(ps[..|ps| - 1]); }
  }

  datatype Validation = Validation(isValid: bool, errors: seq<string>)

  /** `!row[c] || row[c].toString().trim() === ''`. */
  predicate Blank(row: Row, column: string) {
    column !in row || Trim(row[column]) == ""
  }

  /** A validator fires on a cell that is present and non-empty and that it rejects. */
  predicate Rejects(row: Row, column: string, check: Validator) {
    column in row && row[column] != "" && !check(row[column], row)
  }

  /** `requiredColumns.filter(col => !dataColumns.includes(col))`. */
  function Missing(required: seq<string>, columns: set<string>): (r: seq<string>)
    ensures forall c :: c in r <==> c in required && c !in columns
  {
    if required == [] then []
    else
      var rest := Missing(required[..|required| - 1], columns);
      var c := required[|required| - 1];
      assert required == required[..|required| - 1] + [c];
      if c in columns then rest else rest + [c]
  }

  /** No required column is missing from a key set that holds all of them. */
  lemma {:induction false} MissingNone(required: seq<string>, columns: set<string>)
    requires forall c :: c in required ==> c in columns
    ensures Missing(required, columns) == []
  {
    if required != [] {
      MissingNone(required[..|required| - 1], columns);
    }
  }

  /** The required-field findings of row number `n`, in column order. */
  function RequiredProblems(row: Row, n: nat, required: seq<string>): seq<Problem> {
    if required == [] then []
    else
      var c := required[|required| - 1];
      RequiredProblems(row, n, required[..|required| - 1])
        + (if Blank(row, c) then [Required(n, c)] else [])
  }

  /** The custom-validator findings of row number `n`, in validator order. */
  function InvalidProblems(row: Row, n: nat, validators: seq<(string, Validator)>): seq<Problem> {
    if validators == [] then []
    else
      var last := |validators| - 1;
      InvalidProblems(row, n, validators[..last])
        + (if Rejects(row, validators[last].0, validators[last].1) then [Invalid(n, validators[last].0)] else [])
  }

  function RowProblems(row: Row, n: nat, required: seq<string>, validators: seq<(string, Validator)>): seq<Problem> {
    RequiredProblems(row, n, required) + InvalidProblems(row, n, validators)
  }

  /** The per-row findings of all rows, row after row. */
  function RowsProblems(data: seq<Row>, required: seq<string>, validators: seq<(string, Validator)>): seq<Problem> {
    if data == [] then []
    else RowsProblems(data[..|data| - 1], required, validators)
           + RowProblems(data[|data| - 1], |data|, required, validators)
  }

  lemma RowsProblemsPush(data: seq<Row>, i: nat, required: seq<string>, validators: seq<(string, Validator)>)
    requires i < |data|
    ensures RowsProblems(data[..i + 1], required, validators)
            == RowsProblems(data[..i], required, validators) + RowProblems(data[i], i + 1, required, validators)
  {
    assert data[..i + 1][..i] == data[..i];
  }

  /** Everything `validateCSVData(data, required, validators)` reports, in order. */
  function Problems(data: seq<Row>, required: seq<string>, validators: seq<(string, Validator)>): seq<Problem> {
    if |data| == 0 then [NoData]
    else
      var missing := Missing(required, data[0].Keys);
      (if |missing| > 0 then [MissingColumns(missing)] else []) + RowsProblems(data, required, validators)
  }

  /** `validateCSVData`: the findings are gathered row by row, required fields
      before custom validators; the error list is their messages, and the
      result is valid exactly when nothing was reported. */
  method ValidateCsvData(data: seq<Row>, required: seq<string>, validators: seq<(string, Validator)>)
    returns (result: Validation)
    ensures result.errors == Messages(Problems(data, required, validators))
    ensures result.isValid <==> result.errors == []
    ensures |data| == 0 ==> result == Validation(false, ["No data found in CSV file"])
  {
    if |data| == 0 {
      return Validation(false, [Message(NoData)]);
    }
    var missing := Missing(required, data[0].Keys);
    var head: seq<Problem> := if |missing| > 0 then [MissingColumns(missing)] else [];
    var rows := CheckRows(data, required, validators);
    var found := head + rows;
    var errors := Messages(found);
    MessagesLength(found);
    return Validation(|errors| == 0, errors);
  }

  /** The row loop of `validateCSVData`: row `i` is reported as row number `i + 1`. */
  method CheckRows(data: seq<Row>, required: seq<string>, validators: seq<(string, Validator)>)
    returns (found: seq<Problem>)
    ensures found == RowsProblems(data, required, validators)
  {
    found := [];
    var i := 0;
    while i < |data|
      invariant 0 <= i <= |data|
      invariant found == RowsProblems(data[..i], required, validators)
    {
      var rowProblems := ValidateRow(data[i], i + 1, required, validators);
      RowsProblemsPush(data, i, required, validators);
      found := found + rowProblems;
      i := i + 1;
    }
    assert data[..i] == data;
  }

  /** The body of the row loop of `validateCSVData`: the findings for row number `n`. */
  method ValidateRow(row: Row, n: nat, required: seq<string>, validators: seq<(string, Validator)>)
    returns (found: seq<Problem>)
    ensures found == RowProblems(row, n, required, validators)
  {
    var blank := CheckRequired(row, n, required);
    var rejected := CheckValidators(row, n, validators);
    found := blank + rejected;
  }

  /** The loop over the required fields of one row. */
  method CheckRequired(row: Row, n: nat, required: seq<string>) returns (found: seq<Problem>)
    ensures found == RequiredProblems(row, n, required)
  {
    found := [];
    var j := 0;
    while j < |required|
      invariant 0 <= j <= |required|
      invariant found == RequiredProblems(row, n, required[..j])
    {
      var column := required[j];
      assert required[..j + 1][..j] == required[..j];
      if column !in row || Trim(row[column]) == "" {
        found := found + [Required(n, column)];
      }
      j := j + 1;
    }
    assert required[..j] == required;
  }

  /** The loop over the custom validators of one row; a validator only sees a non-empty value. */
  method CheckValidators(row: Row, n: nat, validators: seq<(string, Validator)>) returns (found: seq<Problem>)
    ensures found == InvalidProblems(row, n, validators)
  {
    found := [];
    var k := 0;
    while k < |validators|
      invariant 0 <= k <= |validators|
      invariant found == InvalidProblems(row, n, validators[..k])
    {
      var (column, check) := validators[k];
      assert validators[..k + 1][..k] == validators[..k];
      if column in row && row[column] != "" && !check(row[column], row) {
        found := found + [Invalid(n, column)];
      }
      k := k + 1;
    }
    assert validators[..k] == validators;
  }

  // ---- what the findings mean ----

  /** Every required-field finding of a row carries that row's number, and one
      is reported for a column exactly when the column is required and blank. */
  lemma {:induction false} RequiredProblemsIff(row: Row, n: nat, required: seq<string>)
    ensures forall p :: p in RequiredProblems(row, n, required) ==> p.Required? && p.row == n
    ensures forall c :: Required(n, c) in RequiredProblems(row, n, required) <==> c in required && Blank(row, c)
  {
    if required != [] {
      var front := required[..|required| - 1];
      RequiredProblemsIff(row, n, front);
      assert required == front + [required[|required| - 1]];
    }
  }

  /** Every custom-validator finding of a row carries that row's number, and one
      is reported for a column exactly when some validator of that column rejects its cell. */
  lemma {:induction false} InvalidProblemsIff(row: Row, n: nat, validators: seq<(string, Validator)>)
    ensures forall p :: p in InvalidProblems(row, n, validators) ==> p.Invalid? && p.row == n
    ensures forall c :: Invalid(n, c) in InvalidProblems(row, n, validators) <==>
      exists j :: 0 <= j < |validators| && validators[j].0 == c && Rejects(row, c, validators[j].1)
  {
    if validators != [] {
      var last := |validators| - 1;
      var front := validators[..last];
      InvalidProblemsIff(row, n, front);
      forall c
        ensures Invalid(n, c) in InvalidProblems(row, n, validators) <==>
          exists j :: 0 <= j < |validators| && validators[j].0 == c && Rejects(row, c, validators[j].1)
      {
        if Invalid(n, c) in InvalidProblems(row, n, front) {
          var j :| 0 <= j < |front| && front[j].0 == c && Rejects(row, c, front[j].1);
          assert validators[j] == front[j];
        }
        if exists j :: 0 <= j < |validators| && validators[j].0 == c && Rejects(row, c, validators[j].1) {
          var j :| 0 <= j < |validators| && validators[j].0 == c && Rejects(row, c, validators[j].1);
          if j < last {
            assert front[j] == validators[j];
          }
        }
      }
    }
  }

  /** Every per-row finding names a row that exists. */
  lemma {:induction false} RowsProblemsShape(data: seq<Row>, required: seq<string>, validators: seq<(string, Validator)>)
    ensures forall p :: p in RowsProblems(data, required, validators) ==>
      (p.Required? || p.Invalid?) && 1 <= p.row <= |data|
  {
    if data != [] {
      var m := |data|;
      RowsProblemsShape(data[..m - 1], required, validators);
      RequiredProblemsIff(data[m - 1], m, required);
      InvalidProblemsIff(data[m - 1], m, validators);
    }
  }

  /** The position of a finding in the report order: the missing-columns entry
      first, then row by row, required fields before custom validators. */
  function Rank(p: Problem): nat {
    match p
    case NoData => 0
    case MissingColumns(_) => 0
    case Required(n, _) => 2 * n
    case Invalid(n, _) => 2 * n + 1
  }

  predicate Ordered(ps: seq<Problem>) {
    forall a, b :: 0 <= a < b < |ps| ==> Rank(ps[a]) <= Rank(ps[b])
  }

  /** The per-row findings come in report order. */
  lemma {:induction false} RowsProblemsOrdered(data: seq<Row>, required: seq<string>, validators: seq<(string, Validator)>)
    ensures Ordered(RowsProblems(data, required, validators))
  {
    if data != [] {
      var n := |data|;
      var front := RowsProblems(data[..n - 1], required, validators);
      var req := RequiredProblems(data[n - 1], n, required);
      var inv := InvalidProblems(data[n - 1], n, validators);
      RowsProblemsOrdered(data[..n - 1], required, validators);
      RowsProblemsShape(data[..n - 1], required, validators);
      RequiredProblemsIff(data[n - 1], n, required);
      InvalidProblemsIff(data[n - 1], n, validators);
      var all := front + (req + inv);
      assert RowsProblems(data, required, validators) == all;
      forall a, b | 0 <= a < b < |all| ensures Rank(all[a]) <= Rank(all[b]) {
        if a < |front| && b >= |front| {
          assert all[a] in front;
          assert all[b] in req + inv;
        } else if |front| <= a && a < |front| + |req| && b >= |front| + |req| {
          assert all[a] in req;
          assert all[b] in inv;
        } else if |front| <= a && a < |front| + |req| {
          assert all[a] in req && all[b] in req;
        } else if |front| + |req| <= a {
          assert all[a] in inv && all[b] in inv;
        }
      }
    }
  }

  /** The report order: a missing-columns entry can only come first, and the
      per-row findings follow in row order, required before invalid within a row. */
  lemma ProblemsOrdered(data: seq<Row>, required: seq<string>, validators: seq<(string, Validator)>)
    ensures Ordered(Problems(data, required, validators))
  {
    RowsProblemsOrdered(data, required, validators);
    var ps := Problems(data, required, validators);
    if |data| > 0 {
      var rows := RowsProblems(data, required, validators);
      var missing := Missing(required, data[0].Keys);
      var head := if |missing| > 0 then [MissingColumns(missing)] else [];
      assert ps == head + rows;
      var h := |head|;
      forall a, b | 0 <= a < b < |ps| ensures Rank(ps[a]) <= Rank(ps[b]) {
        if a >= h {
          assert ps[a] == rows[a - h] && ps[b] == rows[b - h];
        }
      }
    }
  }

  /** Only the first entry of a report can be other than a row finding. */
  lemma ProblemsAfterFirstAreRowFindings(data: seq<Row>, required: seq<string>, validators: seq<(string, Validator)>)
    ensures forall i :: 0 < i < |Problems(data, required, validators)| ==>
      Problems(data, required, validators)[i].Required? || Problems(data, required, validators)[i].Invalid?
  {
    RowsProblemsShape(data, required, validators);
    var ps := Problems(data, required, validators);
    if |data| > 0 {
      var rows := RowsProblems(data, required, validators);
      var missing := Missing(required, data[0].Keys);
      var head := if |missing| > 0 then [MissingColumns(missing)] else [];
      assert ps == head + rows;
      var h := |head|;
      forall i | 0 < i < |ps| ensures ps[i].Required? || ps[i].Invalid? {
        assert ps[i] == rows[i - h];
        assert rows[i - h] in rows;
      }
    }
  }

  /** A row's required-field finding is reported exactly when that row exists
      and the column is blank in it. */
  lemma {:induction false} RequiredReportedIff(data: seq<Row>, required: seq<string>, validators: seq<(string, Validator)>,
                                               n: nat, column: string)
    ensures Required(n, column) in RowsProblems(data, required, validators)
      <==> 1 <= n <= |data| && column in required && Blank(data[n - 1], column)
  {
    if data != [] {
      var m := |data|;
      var front := RowsProblems(data[..m - 1], required, validators);
      var req := RequiredProblems(data[m - 1], m, required);
      var inv := InvalidProblems(data[m - 1], m, validators);
      assert RowsProblems(data, required, validators) == front + (req + inv);
      RequiredReportedIff(data[..m - 1], required, validators, n, column);
      RowsProblemsShape(data[..m - 1], required, validators);
      RequiredProblemsIff(data[m - 1], m, required);
      InvalidProblemsIff(data[m - 1], m, validators);
      assert Required(n, column) !in inv;
      if n == m {
        assert Required(n, column) !in front;
      } else {
        assert Required(n, column) !in req;
        if 1 <= n < m { assert data[..m - 1][n - 1] == data[n - 1]; }
      }
    }
  }

  /** A row's custom-validator finding is reported exactly when that row exists
      and one of the column's validators rejects its non-empty cell. */
  lemma {:induction false} InvalidReportedIff(data: seq<Row>, required: seq<string>, validators: seq<(string, Validator)>,
                                              n: nat, column: string)
    ensures Invalid(n, column) in RowsProblems(data, required, validators)
      <==> 1 <= n <= |data| && exists j :: 0 <= j < |validators| && validators[j].0 == column
                                       && Rejects(data[n - 1], column, validators[j].1)
  {
    if data != [] {
      var m := |data|;
      InvalidReportedIff(data[..m - 1], required, validators, n, column);
      RowsProblemsShape(data[..m - 1], required, validators);
      RequiredProblemsIff(data[m - 1], m, required);
      InvalidProblemsIff(data[m - 1], m, validators);
      if 1 <= n < m { assert data[..m - 1][n - 1] == data[n - 1]; }
    }
  }

  /** No row leaves a required column blank and no validator rejects a non-empty cell. */
  predicate RowsClean(data: seq<Row>, required: seq<string>, validators: seq<(string, Validator)>) {
    && (forall i, c :: 0 <= i < |data| && c in required ==> !Blank(data[i], c))
    && (forall i, j :: 0 <= i < |data| && 0 <= j < |validators| ==> !Rejects(data[i], validators[j].0, validators[j].1))
  }

  /** No per-row finding is reported exactly when every row is clean. */
  lemma RowsProblemsEmptyIff(data: seq<Row>, required: seq<string>, validators: seq<(string, Validator)>)
    ensures RowsProblems(data, required, validators) == [] <==> RowsClean(data, required, validators)
  {
    if RowsProblems(data, required, validators) == [] {
      CleanWhenNothingReported(data, required, validators);
    } else {
      UncleanWhenReported(data, required, validators);
    }
  }

  lemma CleanWhenNothingReported(data: seq<Row>, required: seq<string>, validators: seq<(string, Validator)>)
    requires RowsProblems(data, required, validators) == []
    ensures RowsClean(data, required, validators)
  {
    NoBlankWhenNothingReported(data, required, validators);
    NoRejectionWhenNothingReported(data, required, validators);
  }

  lemma NoBlankWhenNothingReported(data: seq<Row>, required: seq<string>, validators: seq<(string, Validator)>)
    requires RowsProblems(data, required, validators) == []
    ensures forall i, c :: 0 <= i < |data| && c in required ==> !Blank(data[i], c)
  {
    forall i, c | 0 <= i < |data| && c in required ensures !Blank(data[i], c) {
      RequiredReportedIff(data, required, validators, i + 1, c);
    }
  }

  lemma NoRejectionWhenNothingReported(data: seq<Row>, required: seq<string>, validators: seq<(string, Validator)>)
    requires RowsProblems(data, required, validators) == []
    ensures forall i, j :: 0 <= i < |data| && 0 <= j < |validators| ==> !Rejects(data[i], validators[j].0, validators[j].1)
  {
    forall i, j | 0 <= i < |data| && 0 <= j < |validators|
      ensures !Rejects(data[i], validators[j].0, validators[j].1)
    {
      InvalidReportedIff(data, required, validators, i + 1, validators[j].0);
    }
  }

  lemma UncleanWhenReported(data: seq<Row>, required: seq<string>, validators: seq<(string, Validator)>)
    requires RowsProblems(data, required, validators) != []
    ensures !RowsClean(data, required, validators)
  {
    var p := RowsProblems(data, required, validators)[0];
    RowsProblemsShape(data, required, validators);
    assert p in RowsProblems(data, required, validators);
    if p.Required? {
      BlankWhenRequiredReported(data, required, validators, p.row, p.column);
    } else {
      RejectedWhenInvalidReported(data, required, validators, p.row, p.column);
    }
  }

  lemma BlankWhenRequiredReported(data: seq<Row>, required: seq<string>, validators: seq<(string, Validator)>,
                                  n: nat, column: string)
    requires Required(n, column) in RowsProblems(data, required, validators)
    ensures !RowsClean(data, required, validators)
  {
    RequiredReportedIff(data, required, validators, n, column);
    assert Blank(data[n - 1], column);
  }

  lemma RejectedWhenInvalidReported(data: seq<Row>, required: seq<string>, validators: seq<(string, Validator)>,
                                    n: nat, column: string)
    requires Invalid(n, column) in RowsProblems(data, required, validators)
    ensures !RowsClean(data, required, validators)
  {
    InvalidReportedIff(data, required, validators, n, column);
    var j :| 0 <= j < |validators| && validators[j].0 == column && Rejects(data[n - 1], column, validators[j].1);
    assert Rejects(data[n - 1], validators[j].0, validators[j].1);
  }

  /** Validation succeeds exactly when there is data, the first row has every
      required column, no row leaves a required column blank and no validator
      rejects a non-empty cell. */
  lemma ValidIff(data: seq<Row>, required: seq<string>, validators: seq<(string, Validator)>)
    ensures Problems(data, required, validators) == [] <==>
      && |data| > 0
      && (forall c :: c in required ==> c in data[0])
      && RowsClean(data, required, validators)
  {
    if |data| > 0 {
      RowsProblemsEmptyIff(data, required, validators);
      var missing := Missing(required, data[0].Keys);
      if missing != [] {
        assert missing[0] in missing;
      }
    }
  }

  // ---------------------------------------------------------------------
  // Mapping and export
  // ---------------------------------------------------------------------

  /** The record `mapCSVData` builds from one row before any transform: each
      map entry whose source column is present copies its value under the
      target name; a later entry with the same target overwrites an earlier one. */
  function Project<V>(row: map<string, V>, mapping: ColumnMap): map<string, V> {
    if mapping == [] then map[]
    else
      var (source, target) := mapping[|mapping| - 1];
      var rest := Project(row, mapping[..|mapping| - 1]);
      if source in row then rest[target := row[source]] else rest
  }

  /** A projected record holds exactly the targets of entries whose source is
      present, and (when targets are distinct) each holds its source's value;
      empty strings are copied like any other value. */
  lemma {:induction false} ProjectContents<V>(row: map<string, V>, mapping: ColumnMap)
    ensures forall k :: k in Project(row, mapping) <==>
      exists j :: 0 <= j < |mapping| && mapping[j].1 == k && mapping[j].0 in row
    ensures DistinctTargets(mapping) ==>
      forall j :: 0 <= j < |mapping| && mapping[j].0 in row ==> Project(row, mapping)[mapping[j].1] == row[mapping[j].0]
  {
    if mapping != [] {
      var last := |mapping| - 1;
      var front := mapping[..last];
      ProjectContents(row, front);
      assert forall j :: 0 <= j < last ==> front[j] == mapping[j];
      forall k ensures k in Project(row, mapping) <==>
        exists j :: 0 <= j < |mapping| && mapping[j].1 == k && mapping[j].0 in row
      {
        if k in Project(row, mapping) && !(mapping[last].1 == k && mapping[last].0 in row) {
          assert k in Project(row, front);
          var j :| 0 <= j < last && front[j].1 == k && front[j].0 in row;
          assert mapping[j].1 == k;
        }
        if exists j :: 0 <= j < |mapping| && mapping[j].1 == k && mapping[j].0 in row {
          var j :| 0 <= j < |mapping| && mapping[j].1 == k && mapping[j].0 in row;
          if j < last { assert front[j].1 == k && front[j].0 in row; }
        }
      }
    }
  }

  /** `Object.fromEntries(entries)`: keys in order of first appearance, each with its last value. */
  function FromEntries(entries: seq<(string, string)>): ColumnMap {
    if entries == [] then []
    else Assign(FromEntries(entries[..|entries| - 1]), entries[|entries| - 1])
  }

  /** Setting one property of an object kept as an ordered list of entries. */
  function Assign(obj: ColumnMap, entry: (string, string)): ColumnMap {
    match KeyIndex(obj, entry.0)
    case Some(i) => obj[i := entry]
    case None => obj + [entry]
  }

  /** The position of the first entry with key `key`, if there is one. */
  function KeyIndex(obj: ColumnMap, key: string): (r: Option<nat>)
    ensures r.Some? ==> r.value < |obj| && obj[r.value].0 == key
    ensures r.Some? ==> forall i :: 0 <= i < r.value ==> obj[i].0 != key
    ensures r.None? ==> forall i :: 0 <= i < |obj| ==> obj[i].0 != key
  {
    if obj == [] then None
    else if obj[0].0 == key then Some(0)
    else match KeyIndex(obj[1..], key)
      case Some(i) => Some(i + 1)
      case None => None
  }

  /** Every pair of a map turned round. */
  function Swapped(mapping: ColumnMap): (r: ColumnMap)
    ensures Sources(r) == Targets(mapping) && Targets(r) == Sources(mapping)
    ensures DistinctTargets(mapping) <==> DistinctSources(r)
    ensures DistinctSources(mapping) <==> DistinctTargets(r)
  {
    var r := seq(|mapping|, j requires 0 <= j < |mapping| => (mapping[j].1, mapping[j].0));
    assert forall j :: 0 <= j < |mapping| ==> r[j].0 == mapping[j].1 && r[j].1 == mapping[j].0;
    r
  }

  /** The `reverseMapping` of `exportEntityData`. */
  function Reverse(mapping: ColumnMap): ColumnMap {
    FromEntries(Swapped(mapping))
  }

  /** Entries whose keys are all different come out of `Object.fromEntries` unchanged. */
  lemma {:induction false} FromEntriesOfDistinctKeys(entries: ColumnMap)
    requires DistinctSources(entries)
    ensures FromEntries(entries) == entries
  {
    if entries != [] {
      var last := |entries| - 1;
      var front := entries[..last];
      assert DistinctSources(front) by {
        forall i, j | 0 <= i < j < |front| ensures front[i].0 != front[j].0 {
          assert front[i] == entries[i] && front[j] == entries[j];
        }
      }
      FromEntriesOfDistinctKeys(front);
      forall i | 0 <= i < |front| ensures front[i].0 != entries[last].0 {
        assert front[i] == entries[i];
      }
      assert KeyIndex(front, entries[last].0).None?;
      assert front + [entries[last]] == entries;
    }
  }

  /** With distinct targets, turning the map round just swaps every pair. */
  lemma ReverseSwapsPairs(mapping: ColumnMap)
    requires DistinctTargets(mapping)
    ensures Reverse(mapping) == Swapped(mapping)
  {
    FromEntriesOfDistinctKeys(Swapped(mapping));
  }

  /** The record `exportEntityData` builds from one database row: each field
      that is a map target and is defined, renamed to its CSV column. */
  function ExportRow<V>(row: map<string, V>, mapping: ColumnMap): map<string, V> {
    Project(row, Reverse(mapping))
  }

  function Restrict<V>(row: map<string, V>, keys: set<string>): map<string, V> {
    map k | k in row && k in keys :: row[k]
  }

  function SourceSet(mapping: ColumnMap): set<string> {
    set j | 0 <= j < |mapping| :: mapping[j].0
  }

  function TargetSet(mapping: ColumnMap): set<string> {
    set j | 0 <= j < |mapping| :: mapping[j].1
  }

  /** With distinct targets, entry `j` decides the target it names. */
  lemma ProjectAt<V>(row: map<string, V>, mapping: ColumnMap, j: nat)
    requires DistinctTargets(mapping) && j < |mapping|
    ensures mapping[j].1 in Project(row, mapping) <==> mapping[j].0 in row
    ensures mapping[j].0 in row ==> Project(row, mapping)[mapping[j].1] == row[mapping[j].0]
  {
    ProjectContents(row, mapping);
  }

  /** A projected record has no field that is not a target of the map. */
  lemma ProjectKeys<V>(row: map<string, V>, mapping: ColumnMap, k: string)
    requires k in Project(row, mapping)
    ensures k in TargetSet(mapping)
  {
    ProjectContents(row, mapping);
    var j :| 0 <= j < |mapping| && mapping[j].1 == k && mapping[j].0 in row;
  }

  lemma ExportThenImportAt<V>(row: map<string, V>, mapping: ColumnMap, k: string)
    requires DistinctSources(mapping) && DistinctTargets(mapping)
    ensures k in Project(ExportRow(row, mapping), mapping) <==> k in Restrict(row, TargetSet(mapping))
    ensures k in Project(ExportRow(row, mapping), mapping) ==>
      Project(ExportRow(row, mapping), mapping)[k] == row[k]
  {
    ReverseSwapsPairs(mapping);
    var swapped := Swapped(mapping);
    var exported := Project(row, swapped);
    if k in Project(exported, mapping) {
      ProjectKeys(exported, mapping, k);
    }
    if k in TargetSet(mapping) {
      var j :| 0 <= j < |mapping| && mapping[j].1 == k;
      ProjectAt(exported, mapping, j);
      ProjectAt(row, swapped, j);
    }
  }

  /** Exporting a record and importing the exported row through the same map
      gives back the record's mapped fields. */
  lemma ExportThenImport<V>(row: map<string, V>, mapping: ColumnMap)
    requires DistinctSources(mapping) && DistinctTargets(mapping)
    ensures Project(ExportRow(row, mapping), mapping) == Restrict(row, TargetSet(mapping))
  {
    var back := Project(ExportRow(row, mapping), mapping);
    var want := Restrict(row, TargetSet(mapping));
    forall k ensures (k in back <==> k in want) && (k in back ==> back[k] == want[k]) {
      ExportThenImportAt(row, mapping, k);
    }
  }

  lemma ImportThenExportAt<V>(row: map<string, V>, mapping: ColumnMap, k: string)
    requires DistinctSources(mapping) && DistinctTargets(mapping)
    ensures k in ExportRow(Project(row, mapping), mapping) <==> k in Restrict(row, SourceSet(mapping))
    ensures k in ExportRow(Project(row, mapping), mapping) ==>
      ExportRow(Project(row, mapping), mapping)[k] == row[k]
  {
    ReverseSwapsPairs(mapping);
    var swapped := Swapped(mapping);
    var mapped := Project(row, mapping);
    if k in Project(mapped, swapped) {
      ProjectKeys(mapped, swapped, k);
      var j :| 0 <= j < |swapped| && swapped[j].1 == k;
    }
    if k in SourceSet(mapping) {
      var j :| 0 <= j < |mapping| && mapping[j].0 == k;
      ProjectAt(mapped, swapped, j);
      ProjectAt(row, mapping, j);
    }
  }

  /** Importing a CSV row and exporting the record through the same map gives
      back the row's mapped columns. */
  lemma ImportThenExport<V>(row: map<string, V>, mapping: ColumnMap)
    requires DistinctSources(mapping) && DistinctTargets(mapping)
    ensures ExportRow(Project(row, mapping), mapping) == Restrict(row, SourceSet(mapping))
  {
    var back := ExportRow(Project(row, mapping), mapping);
    var want := Restrict(row, SourceSet(mapping));
    forall k ensures (k in back <==> k in want) && (k in back ==> back[k] == want[k]) {
      ImportThenExportAt(row, mapping, k);
    }
  }

  /** The inner loop of `mapCSVData` (and, over the reversed map, of `exportEntityData`). */
  method ProjectRow<V>(row: map<string, V>, mapping: ColumnMap) returns (mapped: map<string, V>)
    ensures mapped == Project(row, mapping)
  {
    mapped := map[];
    var j := 0;
    while j < |mapping|
      invariant 0 <= j <= |mapping|
      invariant mapped == Project(row, mapping[..j])
    {
      var (source, target) := mapping[j];
      assert mapping[..j + 1][..j] == mapping[..j];
      if source in row {
        mapped := mapped[target := row[source]];
      }
      j := j + 1;
    }
    assert mapping[..j] == mapping;
  }

  /** `mapCSVData(data, mapping)` with no transform: one projected record per row, in order. */
  method MapCsvData<V>(data: seq<map<string, V>>, mapping: ColumnMap) returns (rows: seq<map<string, V>>)
    ensures |rows| == |data|
    ensures forall i :: 0 <= i < |data| ==> rows[i] == Project(data[i], mapping)
  {
    rows := [];
    var i := 0;
    while i < |data|
      invariant 0 <= i <= |data|
      invariant |rows| == i
      invariant forall r :: 0 <= r < i ==> rows[r] == Project(data[r], mapping)
    {
      var mapped := ProjectRow(data[i], mapping);
      rows := rows + [mapped];
      i := i + 1;
    }
  }

  /** `mapCSVData(data, mapping, transformers[entity])`: the transform's
      result replaces each projected record. */
  method MapCsvDataWith(data: seq<Row>, mapping: ColumnMap, transformer: (Row, Row) -> map<string, Value>)
    returns (rows: seq<map<string, Value>>)
    ensures |rows| == |data|
    ensures forall i :: 0 <= i < |data| ==> rows[i] == transformer(Project(data[i], mapping), data[i])
  {
    rows := [];
    var i := 0;
    while i < |data|
      invariant 0 <= i <= |data|
      invariant |rows| == i
      invariant forall r :: 0 <= r < i ==> rows[r] == transformer(Project(data[r], mapping), data[r])
    {
      var mapped := ProjectRow(data[i], mapping);
      rows := rows + [transformer(mapped, data[i])];
      i := i + 1;
    }
  }

  /** The rows `exportEntityData` hands to the CSV writer: one export row per record, in order. */
  method ExportEntityData<V>(data: seq<map<string, V>>, entityName: string) returns (rows: seq<map<string, V>>)
    ensures |rows| == |data|
    ensures forall i :: 0 <= i < |data| ==> rows[i] == ExportRow(data[i], MappingFor(entityName))
  {
    var reversed := Reverse(MappingFor(entityName));
    rows := MapCsvData(data, reversed);
  }

  // ---------------------------------------------------------------------
  // Preview
  // ---------------------------------------------------------------------

  datatype Preview = Preview(
    data: seq<map<string, Value>>,
    validation: Validation,
    mapping: ColumnMap,
    totalRows: nat,
    validRows: int)

  /** `previewCSVData`: validation against the entity's map targets and
      validators, the mapped rows, and the row counts. */
  method PreviewCsvData(data: seq<Row>, entityName: string, oracles: Oracles) returns (p: Preview)
    ensures p.mapping == MappingFor(entityName)
    ensures p.validation.errors
      == Messages(Problems(data, Targets(MappingFor(entityName)), ValidatorsFor(entityName, oracles)))
    ensures p.validation.isValid <==> p.validation.errors == []
    ensures p.totalRows == |data|
    ensures p.validRows == if p.validation.isValid then |data| else |data| - |p.validation.errors|
    ensures |p.data| == |data|
    ensures forall i :: 0 <= i < |data| ==>
      p.data[i] == (match EntityNamed(entityName)
                    case Some(e) => Transform(e, Project(data[i], ColumnMapping(e)), data[i])
                    case None => map[])
  {
    var mapping := MappingFor(entityName);
    var validation := ValidateCsvData(data, Targets(mapping), ValidatorsFor(entityName, oracles));
    var mapped: seq<map<string, Value>>;
    match EntityNamed(entityName) {
      case Some(e) =>
        mapped := MapCsvDataWith(data, mapping, (m, raw) => Transform(e, m, raw));
      case None =>
        var plain := MapCsvData(data, mapping);
        mapped := seq(|plain|, i requires 0 <= i < |plain| => Lift(plain[i]));
    }
    p := Preview(mapped, validation, mapping,
                 |data|, if validation.isValid then |data| else |data| - |validation.errors|);
  }

  /** A row that leaves every required column blank gets one finding per required column. */
  lemma {:induction false} RequiredProblemsAllBlank(row: Row, n: nat, required: seq<string>)
    requires forall c :: c in required ==> Blank(row, c)
    ensures |RequiredProblems(row, n, required)| == |required|
  {
    if required != [] {
      var front := required[..|required| - 1];
      assert forall c :: c in front ==> c in required;
      RequiredProblemsAllBlank(row, n, front);
      assert required[|required| - 1] in required;
    }
  }

  /** No validator runs on a row with no cells. */
  lemma {:induction false} InvalidProblemsOfEmptyRow(n: nat, validators: seq<(string, Validator)>)
    ensures InvalidProblems(map[], n, validators) == []
  {
    if validators != [] {
      InvalidProblemsOfEmptyRow(n, validators[..|validators| - 1]);
    }
  }

  /** `validRows` is not a row count: a row with none of the customer columns
      yields one missing-columns entry and four required-field errors, so 1 - 5 = -4. */
  lemma ValidRowsCanBeNegative(oracles: Oracles)
    ensures var ps := Problems([map[]], Targets(ColumnMapping(Customers)), Validators(Customers, oracles));
      1 - |ps| == -4
  {
    var required := Targets(ColumnMapping(Customers));
    assert required == ["name", "phone", "address", "type"];
    var row: Row := map[];
    RequiredProblemsAllBlank(row, 1, required);
    var validators := Validators(Customers, oracles);
    InvalidProblemsOfEmptyRow(1, validators);
    assert RowsProblems([row], required, validators) == RowProblems(row, 1, required, validators) by {
      assert [row][..0] == [];
    }
    assert "name" in required && "name" !in row;
  }

  /** No validator runs on a row whose validated cells are all absent or empty. */
  lemma {:induction false} InvalidProblemsOfEmptyCells(row: Row, n: nat, validators: seq<(string, Validator)>)
    requires forall j :: 0 <= j < |validators| ==> validators[j].0 !in row || row[validators[j].0] == ""
    ensures InvalidProblems(row, n, validators) == []
  {
    if validators != [] {
      var front := validators[..|validators| - 1];
      assert forall j :: 0 <= j < |front| ==> front[j] == validators[j];
      InvalidProblemsOfEmptyCells(row, n, front);
    }
  }

  /** A line of empty cells under the customers header (kept by the parser,
      which skips only lines with no text at all) has every column, so
      nothing is missing, but each of its four cells is required: four
      errors, and `validRows` is 1 - 4 = -3. */
  lemma BlankCustomerLineGoesNegative(row: Row, oracles: Oracles)
    requires row.Keys == {"name", "phone", "address", "type"}
    requires forall c :: c in row ==> row[c] == ""
    ensures var ps := Problems([row], Targets(ColumnMapping(Customers)), Validators(Customers, oracles));
      |ps| == 4 && 1 - |ps| == -3
  {
    var required := Targets(ColumnMapping(Customers));
    var validators := Validators(Customers, oracles);
    CustomerColumns();
    assert forall c :: c in required ==> c in row;
    OneRowProblems(row, required, validators);
    assert Trim("") == "";
    assert forall c :: c in required ==> Blank(row, c);
    RequiredProblemsAllBlank(row, 1, required);
    InvalidProblemsOfEmptyCells(row, 1, validators);
  }

  // ---------------------------------------------------------------------
  // Worked rows
  // ---------------------------------------------------------------------

  /** A cell that starts with a character other than white space is filled. */
  lemma FilledWhenStartsSolid(s: string)
    requires |s| > 0 && !IsSpace(s[0])
    ensures Filled(s)
  {
    TrimEmptyIff(s);
  }

  lemma TemplatePhoneHasNoSpace()
    ensures NoSpace("+966501234567")
  {
  }

  lemma TemplatePhoneShape()
    ensures PhoneShape("+966501234567")
  {
    var d := "+966501234567"[1..];
    assert d == "966501234567";
    assert forall i :: 1 <= i < |d| ==> IsDigit(d[i]);
  }

  /** The phone number of the templates passes the phone validator. */
  lemma TemplatePhone()
    ensures IsPhone("+966501234567")
  {
    TemplatePhoneHasNoSpace();
    TemplatePhoneShape();
  }

  /** The phone number "+966 50 123 4567", written in groups (and here in its
      pieces), passes once its spaces are removed. */
  lemma SpacedPhone()
    ensures IsPhone("+966" + " " + "50" + " " + "123" + " " + "4567")
  {
    PhonePieces();
    RemoveSpacesSkipsBlank("+966" + " " + "50" + " " + "123", "4567");
    RemoveSpacesSkipsBlank("+966" + " " + "50", "123");
    RemoveSpacesSkipsBlank("+966", "50");
    TemplatePhoneShape();
  }

  lemma PhonePieces()
    ensures NoSpace("+966") && NoSpace("50") && NoSpace("123") && NoSpace("4567")
    ensures "+966" + "50" + "123" + "4567" == "+966501234567"
  {
  }

  /** One blank between two pieces disappears. */
  lemma RemoveSpacesSkipsBlank(a: string, b: string)
    ensures RemoveSpaces(a + " " + b) == RemoveSpaces(a) + RemoveSpaces(b)
  {
    assert RemoveSpaces(a + " ") == RemoveSpaces(a) by {
      RemoveSpacesAppend(a, " ");
      assert RemoveSpaces(" ") == [];
      assert RemoveSpaces(a) + [] == RemoveSpaces(a);
    }
    RemoveSpacesAppend(a + " ", b);
  }

  /** Text with a dash in it is not a phone number. */
  lemma WordsAreNotAPhone()
    ensures !IsPhone("not-a-phone")
  {
    assert NoSpace("not-a-phone");
  }

  lemma CustomerColumns()
    ensures Targets(ColumnMapping(Customers)) == ["name", "phone", "address", "type"]
  {
  }

  /** What each customers validator rejects: a name that trims to nothing, a
      phone number that fails the pattern, a type other than the two known ones. */
  lemma CustomerVerdicts(row: Row, oracles: Oracles)
    ensures Validators(Customers, oracles) == CustomerValidators()
    ensures |CustomerValidators()| == 3
    ensures CustomerValidators()[0].0 == "name" && CustomerValidators()[1].0 == "phone"
      && CustomerValidators()[2].0 == "type"
    ensures Rejects(row, "name", CustomerValidators()[0].1)
      <==> "name" in row && row["name"] != "" && !Filled(row["name"])
    ensures Rejects(row, "phone", CustomerValidators()[1].1)
      <==> "phone" in row && row["phone"] != "" && !IsPhone(row["phone"])
    ensures Rejects(row, "type", CustomerValidators()[2].1)
      <==> "type" in row && row["type"] != "" && row["type"] != "distributor" && row["type"] != "consumer"
  {
  }

  lemma CustomerValidatorsChosen(oracles: Oracles)
    ensures Validators(Customers, oracles) == CustomerValidators()
  {
  }

  /** A cell that starts with a character other than white space is not blank. */
  lemma FilledCell(row: Row, c: string, text: string)
    requires c in row && row[c] == text && |text| > 0 && !IsSpace(text[0])
    ensures !Blank(row, c)
  {
    FilledWhenStartsSolid(text);
  }

  /** A single row is clean when it fills every required column and no validator rejects it. */
  lemma OneRowClean(row: Row, required: seq<string>, validators: seq<(string, Validator)>)
    requires forall c :: c in required ==> !Blank(row, c)
    requires forall j :: 0 <= j < |validators| ==> !Rejects(row, validators[j].0, validators[j].1)
    ensures RowsClean([row], required, validators)
  {
    assert forall i :: 0 <= i < |[row]| ==> [row][i] == row;
  }

  lemma CustomerCellsFilled(row: Row)
    requires !Blank(row, "name") && !Blank(row, "phone") && !Blank(row, "address") && !Blank(row, "type")
    ensures forall c :: c in Targets(ColumnMapping(Customers)) ==> !Blank(row, c)
  {
    CustomerColumns();
  }

  lemma CustomerValidatorsAccept(row: Row, oracles: Oracles)
    requires !Blank(row, "name")
    requires "phone" in row && IsPhone(row["phone"])
    requires "type" in row && (row["type"] == "distributor" || row["type"] == "consumer")
    ensures forall j :: 0 <= j < |CustomerValidators()| ==>
      !Rejects(row, CustomerValidators()[j].0, CustomerValidators()[j].1)
  {
    CustomerVerdicts(row, oracles);
    var validators := CustomerValidators();
    forall j | 0 <= j < |validators| ensures !Rejects(row, validators[j].0, validators[j].1) {
      assert j == 0 || j == 1 || j == 2;
    }
  }

  /** A customer row is clean when its four columns are filled, its phone
      number passes the pattern and its type is one of the two known ones. */
  lemma CustomerRowClean(row: Row, oracles: Oracles)
    requires !Blank(row, "name") && !Blank(row, "phone") && !Blank(row, "address") && !Blank(row, "type")
    requires "phone" in row && IsPhone(row["phone"])
    requires "type" in row && (row["type"] == "distributor" || row["type"] == "consumer")
    ensures RowsClean([row], Targets(ColumnMapping(Customers)), Validators(Customers, oracles))
  {
    CustomerCellsFilled(row);
    CustomerValidatorsAccept(row, oracles);
    CustomerVerdicts(row, oracles);
    OneRowClean(row, Targets(ColumnMapping(Customers)), CustomerValidators());
  }

  /** The customers template row fills every required column and every validator accepts it. */
  lemma CustomerTemplateClean(oracles: Oracles)
    ensures RowsClean([Template(Customers)], Targets(ColumnMapping(Customers)), Validators(Customers, oracles))
  {
    var row := Template(Customers);
    assert row["name"] == "John Doe" && row["phone"] == "+966501234567";
    assert row["address"] == "Riyadh, Saudi Arabia" && row["type"] == "consumer";
    assert row["name"][0] == 'J' && row["phone"][0] == '+' && row["address"][0] == 'R' && row["type"][0] == 'c';
    FilledCell(row, "name", row["name"]);
    FilledCell(row, "phone", row["phone"]);
    FilledCell(row, "address", row["address"]);
    FilledCell(row, "type", row["type"]);
    TemplatePhone();
    CustomerRowClean(row, oracles);
  }

  /** The customers template, imported as it is, validates with no error. */
  lemma CustomerTemplateIsValid(oracles: Oracles)
    ensures Problems([Template(Customers)], Targets(ColumnMapping(Customers)), Validators(Customers, oracles)) == []
  {
    CustomerTemplateClean(oracles);
    CustomerColumns();
    ValidIff([Template(Customers)], Targets(ColumnMapping(Customers)), Validators(Customers, oracles));
  }

  lemma InventoryColumns()
    ensures Targets(ColumnMapping(Inventory))
         == ["part_code", "center_name", "qty_added", "qty_available", "qty_sold", "qty_reserved"]
  {
  }

  /** A decimal numeral passes the quantity validators. */
  lemma NumeralIsQuantity(m: nat)
    ensures IsNonNegativeInteger(NatToString(m))
  {
    ParseIntOfNatToString(m);
  }

  lemma InventoryTemplateNumerals()
    ensures Template(Inventory)["qty_added"] == NatToString(50)
    ensures Template(Inventory)["qty_available"] == NatToString(45)
    ensures Template(Inventory)["qty_sold"] == NatToString(5)
    ensures Template(Inventory)["qty_reserved"] == NatToString(0)
  {
  }

  lemma InventoryTextCellsFilled(row: Row)
    requires row == Template(Inventory)
    ensures !Blank(row, "part_code") && !Blank(row, "center_name") && !Blank(row, "qty_added")
  {
    assert row["part_code"][0] == 'S' && row["center_name"][0] == 'M' && row["qty_added"][0] == '5';
    FilledCell(row, "part_code", row["part_code"]);
    FilledCell(row, "center_name", row["center_name"]);
    FilledCell(row, "qty_added", row["qty_added"]);
  }

  lemma InventoryCountCellsFilled(row: Row)
    requires row == Template(Inventory)
    ensures !Blank(row, "qty_available") && !Blank(row, "qty_sold") && !Blank(row, "qty_reserved")
  {
    assert row["qty_available"][0] == '4' && row["qty_sold"][0] == '5' && row["qty_reserved"][0] == '0';
    FilledCell(row, "qty_available", row["qty_available"]);
    FilledCell(row, "qty_sold", row["qty_sold"]);
    FilledCell(row, "qty_reserved", row["qty_reserved"]);
  }

  /** An inventory row is clean when its six columns are filled and its four
      quantities are non-negative integers. */
  lemma InventoryRowClean(row: Row)
    requires !Blank(row, "part_code") && !Blank(row, "center_name") && !Blank(row, "qty_added")
    requires !Blank(row, "qty_available") && !Blank(row, "qty_sold") && !Blank(row, "qty_reserved")
    requires IsNonNegativeInteger(row["qty_added"]) && IsNonNegativeInteger(row["qty_available"])
    requires IsNonNegativeInteger(row["qty_sold"]) && IsNonNegativeInteger(row["qty_reserved"])
    ensures RowsClean([row], Targets(ColumnMapping(Inventory)), InventoryValidators())
  {
    SixCellsFilled(row, "part_code", "center_name", "qty_added", "qty_available", "qty_sold", "qty_reserved");
    InventoryColumns();
    InventoryValidatorsAccept(row);
    OneRowClean(row, Targets(ColumnMapping(Inventory)), InventoryValidators());
  }

  lemma InventoryValidatorsAccept(row: Row)
    requires !Blank(row, "part_code") && !Blank(row, "center_name")
    requires "qty_added" in row && IsNonNegativeInteger(row["qty_added"])
    requires "qty_available" in row && IsNonNegativeInteger(row["qty_available"])
    requires "qty_sold" in row && IsNonNegativeInteger(row["qty_sold"])
    requires "qty_reserved" in row && IsNonNegativeInteger(row["qty_reserved"])
    ensures forall j :: 0 <= j < |InventoryValidators()| ==>
      !Rejects(row, InventoryValidators()[j].0, InventoryValidators()[j].1)
  {
    var validators := InventoryValidators();
    forall j | 0 <= j < |validators| ensures !Rejects(row, validators[j].0, validators[j].1) {
      var (c, check) := validators[j];
      assert check(row[c], row) by {
        assert j == 0 || j == 1 || j == 2 || j == 3 || j == 4 || j == 5;
      }
    }
  }

  lemma SixCellsFilled(row: Row, a: string, b: string, c: string, d: string, e: string, f: string)
    requires !Blank(row, a) && !Blank(row, b) && !Blank(row, c)
    requires !Blank(row, d) && !Blank(row, e) && !Blank(row, f)
    ensures forall x :: x in [a, b, c, d, e, f] ==> !Blank(row, x)
  {
    var filled := x => !Blank(row, x);
    SixHold(filled, a, b, c, d, e, f);
  }

  lemma SixHold<T>(p: T -> bool, a: T, b: T, c: T, d: T, e: T, f: T)
    requires p(a) && p(b) && p(c) && p(d) && p(e) && p(f)
    ensures forall x :: x in [a, b, c, d, e, f] ==> p(x)
  {
  }


  lemma InventoryTemplateCounts(row: Row)
    requires row == Template(Inventory)
    ensures IsNonNegativeInteger(row["qty_added"]) && IsNonNegativeInteger(row["qty_available"])
    ensures IsNonNegativeInteger(row["qty_sold"]) && IsNonNegativeInteger(row["qty_reserved"])
  {
    InventoryTemplateNumerals();
    NumeralIsQuantity(50);
    NumeralIsQuantity(45);
    NumeralIsQuantity(5);
    NumeralIsQuantity(0);
  }

  /** The inventory template row fills every required column and every validator accepts it. */
  lemma InventoryTemplateClean()
    ensures RowsClean([Template(Inventory)], Targets(ColumnMapping(Inventory)), InventoryValidators())
  {
    var row := Template(Inventory);
    InventoryTextCellsFilled(row);
    InventoryCountCellsFilled(row);
    InventoryTemplateCounts(row);
    InventoryRowClean(row);
  }

  /** The inventory template, imported as it is, validates with no error;
      none of its validators depends on floating-point or date parsing. */
  lemma InventoryTemplatePasses()
    ensures Problems([Template(Inventory)], Targets(ColumnMapping(Inventory)), InventoryValidators()) == []
  {
    InventoryTemplateClean();
    TemplateHasMappedColumns(Inventory);
    ColumnMappingIsIdentity(Inventory);
    InventoryColumns();
    ValidIff([Template(Inventory)], Targets(ColumnMapping(Inventory)), InventoryValidators());
  }

  /** Projecting a row that has every column of a one-to-one identity map
      through that map gives the row back. */
  lemma ProjectIdentity<V>(row: map<string, V>, mapping: ColumnMap)
    requires DistinctTargets(mapping)
    requires forall j :: 0 <= j < |mapping| ==> mapping[j].0 == mapping[j].1
    requires forall k :: k in row <==> k in Sources(mapping)
    ensures Project(row, mapping) == row
  {
    ProjectContents(row, mapping);
    var p := Project(row, mapping);
    forall k | k in row ensures k in p && p[k] == row[k] {
      var j :| 0 <= j < |mapping| && Sources(mapping)[j] == k;
      ProjectAt(row, mapping, j);
    }
  }

  /** Mapping the customers template gives back its cells unchanged: its
      `type` is already set, so the default does not apply. */
  lemma CustomerTemplateMapsUnchanged()
    ensures var row := Template(Customers);
      Transform(Customers, Project(row, ColumnMapping(Customers)), row) == Lift(row)
  {
    var row := Template(Customers);
    ColumnMappingIsOneToOne(Customers);
    ColumnMappingIsIdentity(Customers);
    TemplateHasMappedColumns(Customers);
    ProjectIdentity(row, ColumnMapping(Customers));
    assert Lift(row)["type" := Text("consumer")] == Lift(row);
  }

  /** Mapping the spare-parts template turns its price into a number and its
      warranty "true" into the flag true, and keeps its code and name as text. */
  lemma SparePartTemplateCoerced()
    ensures var row := Template(SpareParts);
      Transform(SpareParts, Project(row, ColumnMapping(SpareParts)), row)
        == map["code" := Text("SP001"), "name" := Text("Samsung Galaxy S21 Screen"),
               "price" := Decimal("150.00"), "warranty" := Flag(true)]
  {
    var row := Template(SpareParts);
    SparePartTemplateProjects();
    var r := Transform(SpareParts, row, row);
    assert row.Keys == {"code", "name", "price", "warranty"};
    assert r.Keys == {"code", "name", "price", "warranty"};
    assert r["code"] == Text("SP001") && r["name"] == Text("Samsung Galaxy S21 Screen");
  }

  lemma SparePartTemplateProjects()
    ensures Project(Template(SpareParts), ColumnMapping(SpareParts)) == Template(SpareParts)
  {
    ColumnMappingIsOneToOne(SpareParts);
    ColumnMappingIsIdentity(SpareParts);
    TemplateHasMappedColumns(SpareParts);
    ProjectIdentity(Template(SpareParts), ColumnMapping(SpareParts));
  }

  lemma RequiredOfBadRow(row: Row, required: seq<string>)
    requires required == ["name", "phone", "address", "type"]
    requires !Blank(row, "name") && !Blank(row, "phone") && Blank(row, "address") && !Blank(row, "type")
    ensures RequiredProblems(row, 1, required) == [Required(1, "address")]
  {
    assert required[..3] == ["name", "phone", "address"];
    assert required[..3][..2] == ["name", "phone"];
    assert required[..3][..2][..1] == ["name"];
    assert ["name"][..0] == [];
    assert RequiredProblems(row, 1, ["name"]) == [];
    assert RequiredProblems(row, 1, ["name", "phone"]) == [];
    assert RequiredProblems(row, 1, ["name", "phone", "address"]) == [Required(1, "address")];
  }

  lemma InvalidOfBadRow(row: Row, validators: seq<(string, Validator)>)
    requires |validators| == 3
    requires validators[0].0 == "name" && validators[1].0 == "phone" && validators[2].0 == "type"
    requires !Rejects(row, "name", validators[0].1) && Rejects(row, "phone", validators[1].1)
    requires !Rejects(row, "type", validators[2].1)
    ensures InvalidProblems(row, 1, validators) == [Invalid(1, "phone")]
  {
    var v0 := validators[..2];
    var v1 := validators[..1];
    assert v0[..1] == v1 && v1[..0] == [];
    assert InvalidProblems(row, 1, v1) == [];
    assert InvalidProblems(row, 1, v0) == [Invalid(1, "phone")];
  }



  /** The cells of a customer row with a blank address and "not-a-phone" as
      its phone number, as the required check and the validators see them. */
  lemma BadRowCells(row: Row)
    requires "name" in row && |row["name"]| > 0 && !IsSpace(row["name"][0])
    requires "phone" in row && |row["phone"]| > 0 && !IsSpace(row["phone"][0])
    requires "type" in row && |row["type"]| > 0 && !IsSpace(row["type"][0])
    requires "address" in row && row["address"] == ""
    ensures !Blank(row, "name") && !Blank(row, "phone") && Blank(row, "address") && !Blank(row, "type")
  {
    FilledCell(row, "name", row["name"]);
    FilledCell(row, "phone", row["phone"]);
    FilledCell(row, "type", row["type"]);
  }

  lemma BadRowVerdicts(row: Row, oracles: Oracles)
    requires "name" in row && row["name"] == "X"
    requires "phone" in row && row["phone"] == "not-a-phone" && "type" in row && row["type"] == "consumer"
    ensures var validators := CustomerValidators();
      !Rejects(row, "name", validators[0].1) && Rejects(row, "phone", validators[1].1)
      && !Rejects(row, "type", validators[2].1)
  {
    CustomerVerdicts(row, oracles);
    WordsAreNotAPhone();
    FilledWhenStartsSolid("X");
  }

  /** A single row whose first row has every required column is reported
      with exactly its own findings. */
  lemma OneRowProblems(row: Row, required: seq<string>, validators: seq<(string, Validator)>)
    requires forall c :: c in required ==> c in row
    ensures Problems([row], required, validators) == RequiredProblems(row, 1, required) + InvalidProblems(row, 1, validators)
  {
    assert [row][..0] == [];
    assert RowsProblems([row], required, validators) == RowProblems(row, 1, required, validators);
    MissingNone(required, row.Keys);
  }

  /** The findings of a one-row import whose row has every required column,
      fills all but the address, and fails only the phone validator. */
  lemma OnlyAddressAndPhoneFail(row: Row, required: seq<string>, validators: seq<(string, Validator)>)
    requires required == ["name", "phone", "address", "type"]
    requires "name" in row && "phone" in row && "address" in row && "type" in row
    requires !Blank(row, "name") && !Blank(row, "phone") && Blank(row, "address") && !Blank(row, "type")
    requires |validators| == 3
    requires validators[0].0 == "name" && validators[1].0 == "phone" && validators[2].0 == "type"
    requires !Rejects(row, "name", validators[0].1) && Rejects(row, "phone", validators[1].1)
    requires !Rejects(row, "type", validators[2].1)
    ensures Problems([row], required, validators) == [Required(1, "address"), Invalid(1, "phone")]
  {
    RequiredOfBadRow(row, required);
    InvalidOfBadRow(row, validators);
    OneRowProblems(row, required, validators);
  }


  /** A customer row with a blank address and an unreadable phone number gets
      exactly two findings for row 1: the blank address first, then the phone. */
  lemma BadPhoneAndBlankAddressRejected(oracles: Oracles)
    ensures var row: Row := map["name" := "X", "phone" := "not-a-phone", "address" := "", "type" := "consumer"];
      Problems([row], Targets(ColumnMapping(Customers)), Validators(Customers, oracles))
        == [Required(1, "address"), Invalid(1, "phone")]
  {
    var row: Row := map["name" := "X", "phone" := "not-a-phone", "address" := "", "type" := "consumer"];
    assert "name" in row && row["name"] == "X" && "address" in row && row["address"] == "";
    assert "phone" in row && row["phone"] == "not-a-phone" && "type" in row && row["type"] == "consumer";
    CustomerColumns();
    CustomerValidatorsChosen(oracles);
    assert row["name"][0] == 'X' && row["phone"][0] == 'n' && row["type"][0] == 'c';
    BadRowCells(row);
    BadRowVerdicts(row, oracles);
    OnlyAddressAndPhoneFail(row, Targets(ColumnMapping(Customers)), CustomerValidators());
  }
}
