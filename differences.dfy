/** How the handlers of src/controller.py differ from those of
    src/companies/controller.py: only in the status of a bad `sort` and in
    the wrapping of a found company. */
module Differences {
  import opened Json
  import opened Python
  import opened Handlers
  import PackageController
  import RootController

  /** The two list handlers give the same reply and make the same query on
      every request except one with a bad `sort` (and a convertible
      `start`), where the package answers 400 and the root file 200, both
      with the same error body and without querying storage. */
  lemma ListHandlersAgree(args: ListArgs, answer: Answer<seq<Row>>)
    ensures var p := PackageController.ListCompanies(args, answer);
      var q := RootController.ListCompanies(args, answer);
      if !args.start.StartInvalid? && SortOf(args) !in SortFields then
        p.call == q.call == None &&
        p.reply == Response(400, ErrorBody(InvalidSortMessage)) &&
        q.reply == Response(200, ErrorBody(InvalidSortMessage))
      else p == q
  {
  }

  /** A bad `sort` answered by the root file cannot be told from a success
      by its status: both are 200. */
  lemma RootInvalidSortLooksSuccessful(answer: Answer<seq<Row>>)
    ensures var h := RootController.ListCompanies(ListArgs(NoStart, None, Some("nome"), None), answer);
      h.reply == Response(200, ErrorBody(InvalidSortMessage)) && h.call.None?
  {
    assert "nome" !in SortFields;
  }

  /** The get handlers agree on every status; on 200 the root file wraps
      the package's body under the single key "company". */
  lemma GetHandlersAgree(found: Answer<Option<Row>>)
    ensures var p := PackageController.GetCompany(found);
      var q := RootController.GetCompany(found);
      p.Response? && q.Response? && p.status == q.status &&
      (if p.status == 200 then q.body == Object([("company", p.body)]) else p == q)
  {
  }

  /** The delete handlers agree everywhere. */
  lemma DeleteHandlersAgree(deleted: Answer<int>)
    ensures PackageController.DeleteCompany(deleted) == RootController.DeleteCompany(deleted)
  {
  }
}
