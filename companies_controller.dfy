/** The handlers of src/companies/controller.py: the flask_restx resources
    CompaniesController (list), CompanyController (create),
    CompanyUuidController (update and get) and CompanyCnpjController (delete).
    Each takes what storage answered and gives the reply it returns. */
module PackageController {
  import opened Json
  import opened Python
  import opened Handlers

  /** CompaniesController.get. Bad `sort` and bad `dir` are both 400, the
      sort check first; storage is queried only when every argument passes,
      and then the reply is the envelope over what it returned. */
  function ListCompanies(args: ListArgs, answer: Answer<seq<Row>>): (h: Handled<ListCall>)
    ensures args.start.StartInvalid? ==> h == Handled(Escaped(StartError(args.start.raw)), None)
    ensures !args.start.StartInvalid? && SortOf(args) !in SortFields ==>
      h == Handled(Response(400, ErrorBody(InvalidSortMessage)), None)
    ensures !args.start.StartInvalid? && SortOf(args) in SortFields && DirOf(args) !in Directions ==>
      h == Handled(Response(400, ErrorBody(InvalidDirMessage)), None)
    ensures h.call.Some? <==> !args.start.StartInvalid? && SortOf(args) in SortFields && DirOf(args) in Directions
    ensures h.call.Some? ==>
      h.call.value == ListCall(StartOf(args), LimitOf(args), SortOf(args), DirOf(args)) &&
      h.reply == ListReply(h.call.value, answer)
    ensures (h.reply.Response? && h.reply.status == 400) <==>
      !args.start.StartInvalid? && (SortOf(args) !in SortFields || DirOf(args) !in Directions)
  {
    match CheckList(args)
    case BadStart(e) => Handled(Escaped(e), None)
    case BadSort => Handled(Response(400, ErrorBody(InvalidSortMessage)), None)
    case BadDir => Handled(Response(400, ErrorBody(InvalidDirMessage)), None)
    case Query(call) => Handled(ListReply(call, answer), Some(call))
  }

  /** CompanyController.post. The body must be an object; every required
      field that is absent or falsy is named in one 400 reply, and only when
      none is missing is `save_company` called, with the four fields. */
  method PostCompany(body: Value, save: Answer<()>) returns (reply: Reply, call: Option<SaveCall>)
    ensures reply.Response?
    ensures call.Some? <==> body.Object? && MissingFields(body.members) == []
    ensures call.Some? ==> call.value == SaveCall(Get(body.members, "cnpj"), Get(body.members, "nomerazao"),
                                                  Get(body.members, "nomefantasia"), Get(body.members, "cnae"))
    ensures !body.Object? ==> reply == Response(500, ErrorBody(NoAttributeGet(body)))
    ensures body.Object? && MissingFields(body.members) != [] ==> reply == InvalidContent(MissingFields(body.members))
    ensures call.Some? && save.Returns? ==> reply == Response(201, MessageBody(CreatedMessage))
    ensures call.Some? && save.Throws? && save.exc.KeyError? ==> reply == InvalidContent([])
    ensures call.Some? && save.Throws? && save.exc.OtherError? ==> reply == Response(500, ErrorBody(save.exc.text))
    ensures reply.status == 201 <==> call.Some? && save.Returns?
  {
    call := None;
    if !body.Object? {
      // `data.get` raises AttributeError, caught by `except Exception`
      reply := Response(500, ErrorBody(NoAttributeGet(body)));
      return;
    }
    var data := body.members;
    var errorMessage := CollectMissing(data);
    if |errorMessage| > 0 {
      reply := InvalidContent(errorMessage);
      return;
    }
    call := Some(SaveCall(Get(data, "cnpj"), Get(data, "nomerazao"), Get(data, "nomefantasia"), Get(data, "cnae")));
    match save
    case Returns(_) =>
      reply := Response(201, MessageBody(CreatedMessage));
    case Throws(KeyError(_)) =>
      reply := InvalidContent(errorMessage);
    case Throws(OtherError(text)) =>
      reply := Response(500, ErrorBody(text));
  }

  /** CompanyUuidController.patch. A body with neither `nomefantasia` nor
      `cnae` truthy is a 400 naming both, and storage is left alone;
      otherwise `update_company` runs and no changed row means 404. */
  method PatchCompany(uuid: string, body: Value, update: Answer<int>) returns (reply: Reply, call: Option<UpdateCall>)
    ensures reply.Response?
    ensures call.Some? <==>
      body.Object? && (Truthy(Get(body.members, "nomefantasia")) || Truthy(Get(body.members, "cnae")))
    ensures call.Some? ==> call.value == UpdateCall(uuid, Get(body.members, "nomefantasia"), Get(body.members, "cnae"))
    ensures !body.Object? ==> reply == Response(500, ErrorBody(NoAttributeGet(body)))
    ensures body.Object? && call.None? ==> reply == InvalidContent(["nomefantasia", "cnae"])
    ensures call.Some? && update.Returns? && update.value == 0 ==> reply == Response(404, MessageBody(NotFoundBangMessage))
    ensures call.Some? && update.Returns? && update.value != 0 ==> reply == Response(200, MessageBody(UpdatedMessage))
    ensures call.Some? && update.Throws? && update.exc.KeyError? ==> reply == InvalidContent([])
    ensures call.Some? && update.Throws? && update.exc.OtherError? ==> reply == Response(500, ErrorBody(update.exc.text))
  {
    call := None;
    if !body.Object? {
      reply := Response(500, ErrorBody(NoAttributeGet(body)));
      return;
    }
    var nomefantasia := Get(body.members, "nomefantasia");
    var cnae := Get(body.members, "cnae");
    var errorMessage: seq<string> := [];
    if !Truthy(nomefantasia) && !Truthy(cnae) {
      errorMessage := errorMessage + ["nomefantasia"];
      errorMessage := errorMessage + ["cnae"];
      reply := InvalidContent(errorMessage);
      return;
    }
    call := Some(UpdateCall(uuid, nomefantasia, cnae));
    match update
    case Returns(rowsAffected) =>
      if rowsAffected == 0 {
        reply := Response(404, MessageBody(NotFoundBangMessage));
      } else {
        reply := Response(200, MessageBody(UpdatedMessage));
      }
    case Throws(KeyError(_)) =>
      reply := InvalidContent(errorMessage);
    case Throws(OtherError(text)) =>
      reply := Response(500, ErrorBody(text));
  }

  /** CompanyUuidController.get, given what `find_company(company_uuid)`
      answered. Not found is 404; a found row is returned as its seven
      columns; every exception is a 500 with its text. */
  function GetCompany(found: Answer<Option<Row>>): (r: Reply)
    ensures r.Response?
    ensures r.status == 404 <==> found.Returns? && !Found(found.value)
    ensures r.status == 404 ==> r.body == MessageBody(NotFoundMessage)
    ensures r.status == 200 <==> found.Returns? && Found(found.value) && HasColumns(found.value.value)
    ensures r.status == 200 ==> r.body == Project(found.value.value)
    ensures found.Throws? ==> r == Response(500, ErrorBody(found.exc.text))
    ensures found.Returns? && Found(found.value) && !HasColumns(found.value.value) ==>
      r == Response(500, ErrorBody(NoSuchColumnMessage))
  {
    match found
    case Throws(e) => Response(500, ErrorBody(e.text))
    case Returns(company) =>
      if !Found(company) then Response(404, MessageBody(NotFoundMessage))
      else if HasColumns(company.value) then Response(200, Project(company.value))
      else Response(500, ErrorBody(NoSuchColumnMessage))
  }

  /** CompanyCnpjController.delete, given what `delete_company(company_cnpj)`
      answered: no deleted row is 404, any other count 200. */
  function DeleteCompany(deleted: Answer<int>): (r: Reply)
    ensures r.Response?
    ensures r == Response(404, MessageBody(NotFoundBangMessage)) <==> deleted == Returns(0)
    ensures r == Response(200, MessageBody(RemovedMessage)) <==> deleted.Returns? && deleted.value != 0
    ensures r.status == 500 <==> deleted.Throws?
    ensures deleted.Throws? ==> r.body == ErrorBody(deleted.exc.text)
  {
    match deleted
    case Throws(e) => Response(500, ErrorBody(e.text))
    case Returns(rowsAffected) =>
      if rowsAffected == 0 then Response(404, MessageBody(NotFoundBangMessage))
      else Response(200, MessageBody(RemovedMessage))
  }
}
