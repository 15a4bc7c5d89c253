/** What the two controller files share: how storage answers, what a handler
    gives back, the constants both use, the company projection, the list
    envelope, the checks on list arguments and the required-field check of
    the create handler. */
module Handlers {
  import opened Json
  import opened Python

  /** What a storage function did when a handler called it. */
  datatype Answer<T> = Returns(value: T) | Throws(exc: Exception)

  /** What a handler gives back: a status with a JSON body, or an exception
      it does not catch, which escapes to the web framework. */
  datatype Reply = Response(status: int, body: Value) | Escaped(exc: Exception)

  /** A reply together with the storage call the handler made, if any. */
  datatype Handled<C> = Handled(reply: Reply, call: Option<C>)

  /** A stored company as the storage functions hand it over: a sqlite3
      row (the row factory src/database.py:10 selects), its columns in
      select order, each with its name and its cell. */
  type Row = seq<(string, Value)>

  /** The columns every company response is built from, in response order. */
  const Columns: seq<string> :=
    ["uuid", "cnpj", "nomerazao", "nomefantasia", "cnae", "created_at", "updated_at"]

  /** The allow-list for the `sort` argument. */
  const SortFields: seq<string> :=
    ["uuid", "cnpj", "nomerazao", "nomefantasia", "cnae", "created_at", "updated_at"]

  /** The accepted values of the upper-cased `dir` argument. */
  const Directions: seq<string> := ["ASC", "DESC"]

  /** The fields the create handler requires, in the order it checks them. */
  const RequiredFields: seq<string> := ["cnpj", "nomefantasia", "nomerazao", "cnae"]

  const InvalidSortMessage: string :=
    "Campo selecinado para ordenação inválida. Escolha id, cnpj, nomerazao, nomefantasia ou cnae."
  const InvalidDirMessage: string := "Ordem de ordenação inválida. Use \"asc\" ou \"desc\"."
  const InvalidContentPrefix: string := "Conteúdo inválido. Os campos são obrigatórios: "
  const CreatedMessage: string := "Empresa criada com sucesso!"
  const UpdatedMessage: string := "Empresa atualizada com sucesso!"
  const RemovedMessage: string := "Empresa removida com sucesso!"
  /** The not-found text of the get handlers; patch and delete add a "!". */
  const NotFoundMessage: string := "Empresa não encontrada"
  const NotFoundBangMessage: string := "Empresa não encontrada!"
  /** `str(e)` of the IndexError a sqlite3 row raises for an unknown column. */
  const NoSuchColumnMessage: string := "No item with that key"

  function ErrorBody(text: string): Value
  {
    Object([("error", Str(text))])
  }

  function MessageBody(text: string): Value
  {
    Object([("message", Str(text))])
  }

  /** The 400 reply of the shared `except KeyError` branch, naming `fields`. */
  function InvalidContent(fields: seq<string>): Reply
  {
    Response(400, ErrorBody(InvalidContentPrefix + Join(fields, ", ")))
  }

  // ---------------------------------------------------------------------------
  // Companies as returned to clients

  /** `if not company`: a row counts as found when it is there and has a
      column (the length of a sqlite3 row is its number of columns). */
  predicate Found(found: Option<Row>)
  {
    found.Some? && |found.value| > 0
  }

  function LowerChar(c: char): char
  {
    if 'A' <= c <= 'Z' then (c as int + 32) as char else c
  }

  /** A sqlite3 row matches a key against its column names ignoring ASCII case. */
  predicate SameName(a: string, b: string)
  {
    |a| == |b| && forall i :: 0 <= i < |a| ==> LowerChar(a[i]) == LowerChar(b[i])
  }

  /** The index of the first column that `name` matches, or `|row|` when none does. */
  function ColumnIndex(row: Row, name: string): (i: nat)
    ensures i <= |row|
    ensures i < |row| ==> SameName(row[i].0, name)
    ensures forall k :: 0 <= k < i ==> !SameName(row[k].0, name)
  {
    if row == [] || SameName(row[0].0, name) then 0 else 1 + ColumnIndex(row[1..], name)
  }

  predicate HasColumn(row: Row, name: string)
  {
    ColumnIndex(row, name) < |row|
  }

  /** `row[name]`: the cell of the first column that `name` matches. */
  function Cell(row: Row, name: string): Value
    requires HasColumn(row, name)
  {
    row[ColumnIndex(row, name)].1
  }

  /** A lookup succeeds exactly when some column bears the name in some
      mix of ASCII cases, and then gives the first such column's cell. */
  lemma CellIgnoresCase(row: Row, name: string, k: nat)
    requires k < |row| && SameName(row[k].0, name)
    requires forall j :: 0 <= j < k ==> !SameName(row[j].0, name)
    ensures HasColumn(row, name) && Cell(row, name) == row[k].1
  {
  }

  /** A column named "UUID" answers the key "uuid". */
  lemma UpperCaseColumnFound(v: Value)
    ensures HasColumn([("UUID", v)], "uuid") && Cell([("UUID", v)], "uuid") == v
  {
    var row := [("UUID", v)];
    assert SameName(row[0].0, "uuid") by {
      assert LowerChar('U') == 'u' && LowerChar('I') == 'i' && LowerChar('D') == 'd';
    }
    CellIgnoresCase(row, "uuid", 0);
  }

  predicate HasColumns(row: Row)
  {
    forall i :: 0 <= i < |Columns| ==> HasColumn(row, Columns[i])
  }

  predicate AllHaveColumns(rows: seq<Row>)
  {
    forall k :: 0 <= k < |rows| ==> HasColumns(rows[k])
  }

  /** The dictionary built from a row: exactly the seven columns, in order,
      each with the row's cell. */
  function Project(row: Row): (r: Value)
    requires HasColumns(row)
    ensures r.Object? && Keys(r.members) == Columns && DistinctKeys(r.members)
  {
    Object(seq(|Columns|, i requires 0 <= i < |Columns| => (Columns[i], Cell(row, Columns[i]))))
  }

  /** A projected company answers every column with the row's cell and
      carries nothing else of the row: any other key reads as None. */
  lemma ProjectLookup(row: Row, key: string)
    requires HasColumns(row)
    ensures key in Columns ==> HasColumn(row, key) && Get(Project(row).members, key) == Cell(row, key)
    ensures key !in Columns ==> Get(Project(row).members, key) == Null
  {
    var m := Project(row).members;
    if key in Columns {
      var i :| 0 <= i < |Columns| && Columns[i] == key;
      assert m[i].0 == key;
      GetDistinct(m, i);
    } else {
      assert forall i :: 0 <= i < |m| ==> m[i].0 == Columns[i];
      GetAbsent(m, key);
    }
  }

  // ---------------------------------------------------------------------------
  // Listing

  /** The outcome of `int(request.args.get("start", default=0))`: no
      argument, an argument `int()` converts, or one it rejects. */
  datatype StartArg = NoStart | StartInt(value: int) | StartInvalid(raw: string)

  /** The query arguments of a list request, as `request.args.get` finds them. */
  datatype ListArgs = ListArgs(start: StartArg, limit: Option<string>, sort: Option<string>, dir: Option<string>)

  /** The call `list_companies(start, limit, sort, sort_dir)`. */
  datatype ListCall = ListCall(start: int, limit: Value, sort: string, dir: string)

  function StartOf(args: ListArgs): int
  {
    match args.start
    case StartInt(n) => n
    case _ => 0
  }

  /** `limit` is not converted: the raw text when given, the integer 10 otherwise. */
  function LimitOf(args: ListArgs): Value
  {
    match args.limit
    case Some(text) => Str(text)
    case None => Int(10)
  }

  function SortOf(args: ListArgs): string
  {
    match args.sort
    case Some(field) => field
    case None => "uuid"
  }

  function DirOf(args: ListArgs): string
  {
    Upper(match args.dir case Some(d) => d case None => "asc")
  }

  /** The ValueError that `int()` raises on an unconvertible `start`. */
  function StartError(raw: string): Exception
  {
    OtherError("invalid literal for int() with base 10: '" + raw + "'")
  }

  /** The checks both list handlers make before querying storage. */
  datatype ListCheck = BadStart(exc: Exception) | BadSort | BadDir | Query(call: ListCall)

  /** The list arguments are checked in source order: `start` is converted
      first, then `sort` is checked against the allow-list, then the
      upper-cased `dir` against ASC and DESC. A query is issued exactly when
      all three pass, and it echoes the arguments with their defaults. */
  function CheckList(args: ListArgs): (c: ListCheck)
    ensures c.BadStart? <==> args.start.StartInvalid?
    ensures c.BadSort? <==> !args.start.StartInvalid? && SortOf(args) !in SortFields
    ensures c.BadDir? <==> !args.start.StartInvalid? && SortOf(args) in SortFields && DirOf(args) !in Directions
    ensures c.Query? ==> c.call == ListCall(StartOf(args), LimitOf(args), SortOf(args), DirOf(args))
  {
    if args.start.StartInvalid? then BadStart(StartError(args.start.raw))
    else if SortOf(args) !in SortFields then BadSort
    else if DirOf(args) !in Directions then BadDir
    else Query(ListCall(StartOf(args), LimitOf(args), SortOf(args), DirOf(args)))
  }

  /** With no arguments, the query is from 0, limit 10, by uuid, ascending. */
  lemma ListDefaults()
    ensures CheckList(ListArgs(NoStart, None, None, None)) == Query(ListCall(0, Int(10), "uuid", "ASC"))
  {
    assert Upper("asc") == "ASC";
  }

  /** The direction is accepted exactly when it spells "asc" or "desc" in
      any mix of cases (a long s standing for s). */
  lemma DirAccepted(args: ListArgs)
    ensures var d := match args.dir case Some(d) => d case None => "asc";
      DirOf(args) in Directions <==>
        (|d| == 3 && Spells(d[0], 'A') && Spells(d[1], 'S') && Spells(d[2], 'C')) ||
        (|d| == 4 && Spells(d[0], 'D') && Spells(d[1], 'E') && Spells(d[2], 'S') && Spells(d[3], 'C'))
  {
    var d := match args.dir case Some(d) => d case None => "asc";
    UpperEquals(d, "ASC");
    UpperEquals(d, "DESC");
  }

  /** The successful list response. */
  function Envelope(call: ListCall, rows: seq<Row>): Value
    requires AllHaveColumns(rows)
  {
    Object([
      ("count", Int(|rows|)),
      ("start", Int(call.start)),
      ("limit", call.limit),
      ("sort", Str(call.sort)),
      ("dir", Str(call.dir)),
      ("companies", Array(seq(|rows|, k requires 0 <= k < |rows| => Project(rows[k]))))
    ])
  }

  /** The envelope reports how many companies it holds, echoes the query
      that produced them and lists each row projected, in storage order. */
  lemma EnvelopeFields(call: ListCall, rows: seq<Row>)
    requires AllHaveColumns(rows)
    ensures var m := Envelope(call, rows).members;
      Keys(m) == ["count", "start", "limit", "sort", "dir", "companies"] &&
      Get(m, "count") == Int(|rows|) &&
      Get(m, "start") == Int(call.start) &&
      Get(m, "limit") == call.limit &&
      Get(m, "sort") == Str(call.sort) &&
      Get(m, "dir") == Str(call.dir) &&
      Get(m, "companies").Array? &&
      |Get(m, "companies").items| == |rows| &&
      forall k :: 0 <= k < |rows| ==> Get(m, "companies").items[k] == Project(rows[k])
  {
    var m := Envelope(call, rows).members;
    assert DistinctKeys(m);
    GetDistinct(m, 0);
    GetDistinct(m, 1);
    GetDistinct(m, 2);
    GetDistinct(m, 3);
    GetDistinct(m, 4);
    GetDistinct(m, 5);
  }

  /** What a list handler replies once storage has answered its query. The
      handler has no `except`: a storage error, or a row missing a column
      while the companies are projected, escapes it. */
  function ListReply(call: ListCall, answer: Answer<seq<Row>>): (r: Reply)
    ensures r.Response? <==> answer.Returns? && AllHaveColumns(answer.value)
    ensures r.Response? ==> r == Response(200, Envelope(call, answer.value))
    ensures answer.Throws? ==> r == Escaped(answer.exc)
    ensures answer.Returns? && !AllHaveColumns(answer.value) ==> r == Escaped(OtherError(NoSuchColumnMessage))
  {
    match answer
    case Throws(e) => Escaped(e)
    case Returns(rows) =>
      if AllHaveColumns(rows) then Response(200, Envelope(call, rows))
      else Escaped(OtherError(NoSuchColumnMessage))
  }

  // ---------------------------------------------------------------------------
  // Required fields on create

  /** The subsequence of `fields` whose body values are falsy, in order. */
  function MissingAmong(data: seq<(string, Value)>, fields: seq<string>): seq<string>
    decreases |fields|
  {
    if fields == [] then []
    else (if !Truthy(Get(data, fields[0])) then [fields[0]] else []) + MissingAmong(data, fields[1..])
  }

  /** The required fields the body leaves absent or falsy, in checking order. */
  function MissingFields(data: seq<(string, Value)>): seq<string>
  {
    MissingAmong(data, RequiredFields)
  }

  /** `xs` is `ys` with some elements removed. */
  predicate Subsequence(xs: seq<string>, ys: seq<string>)
    decreases |ys|
  {
    if xs == [] then true
    else if ys == [] then false
    else (xs[0] == ys[0] && Subsequence(xs[1..], ys[1..])) || Subsequence(xs, ys[1..])
  }

  lemma {:induction false} MissingAmongExact(data: seq<(string, Value)>, fields: seq<string>)
    ensures forall f :: f in MissingAmong(data, fields) <==> f in fields && !Truthy(Get(data, f))
    ensures Subsequence(MissingAmong(data, fields), fields)
    decreases |fields|
  {
    if fields != [] {
      MissingAmongExact(data, fields[1..]);
      var rest := MissingAmong(data, fields[1..]);
      assert fields == [fields[0]] + fields[1..];
      if !Truthy(Get(data, fields[0])) {
        assert ([fields[0]] + rest)[1..] == rest;
      } else {
        assert MissingAmong(data, fields) == rest;
      }
    }
  }

  /** The missing list names exactly the required fields that are absent or
      falsy, and keeps the order cnpj, nomefantasia, nomerazao, cnae. */
  lemma MissingFieldsExact(data: seq<(string, Value)>)
    ensures forall f :: f in MissingFields(data) <==> f in RequiredFields && !Truthy(Get(data, f))
    ensures Subsequence(MissingFields(data), RequiredFields)
    ensures MissingFields(data) == [] <==> forall f :: f in RequiredFields ==> Truthy(Get(data, f))
  {
    MissingAmongExact(data, RequiredFields);
    if MissingFields(data) != [] {
      assert MissingFields(data)[0] in MissingFields(data);
    }
  }

  lemma CommaFreeRequired(f: string)
    requires f in RequiredFields
    ensures ',' !in f
  {
    assert f == "cnpj" || f == "nomefantasia" || f == "nomerazao" || f == "cnae";
  }

  /** The 400 message of create names all missing fields: the list can be
      read back from the text after its fixed prefix. */
  lemma MissingMessageReadsBack(data: seq<(string, Value)>)
    requires MissingFields(data) != []
    ensures var text := InvalidContentPrefix + Join(MissingFields(data), ", ");
      text[|InvalidContentPrefix|..] == Join(MissingFields(data), ", ") &&
      SplitList(text[|InvalidContentPrefix|..]) == MissingFields(data)
  {
    var missing := MissingFields(data);
    MissingFieldsExact(data);
    forall k | 0 <= k < |missing| ensures ',' !in missing[k] {
      assert missing[k] in missing;
      CommaFreeRequired(missing[k]);
    }
    SplitJoin(missing);
    var joined := Join(missing, ", ");
    assert (InvalidContentPrefix + joined)[|InvalidContentPrefix|..] == joined;
  }

  /** The create handler's field checks (`if not cnpj: error_message.append("cnpj")`
      and so on), one append after another. */
  method CollectMissing(data: seq<(string, Value)>) returns (errorMessage: seq<string>)
    ensures errorMessage == MissingFields(data)
  {
    var cnpj := Get(data, "cnpj");
    var nomerazao := Get(data, "nomerazao");
    var nomefantasia := Get(data, "nomefantasia");
    var cnae := Get(data, "cnae");
    errorMessage := [];
    if !Truthy(cnpj) {
      errorMessage := errorMessage + ["cnpj"];
    }
    if !Truthy(nomefantasia) {
      errorMessage := errorMessage + ["nomefantasia"];
    }
    if !Truthy(nomerazao) {
      errorMessage := errorMessage + ["nomerazao"];
    }
    if !Truthy(cnae) {
      errorMessage := errorMessage + ["cnae"];
    }
  }

  /** The call `save_company(cnpj, nomerazao, nomefantasia, cnae)`. */
  datatype SaveCall = SaveCall(cnpj: Value, nomerazao: Value, nomefantasia: Value, cnae: Value)

  /** The call `update_company(company_uuid, nomefantasia, cnae)`. */
  datatype UpdateCall = UpdateCall(uuid: string, nomefantasia: Value, cnae: Value)
}
