/** The AJAX handlers of QR_Admin that change or audit the stored codes: saving a
    code, deleting one, deleting everything, and the data-integrity check. Nonce and
    capability checks and the JSON replies' transport are not modelled; each
    handler returns the reply it would send. */
module AdminAjax {
  import opened Text
  import Database
  import Router

  /** The reply sent by wp_send_json_error / wp_send_json_success. */
  datatype Reply = Failure(message: string) | Success(message: string)

  /** The reply of ajax_save_code: an error message, or the saved code's id and tracking URL. */
  datatype SaveReply = SaveFailure(message: string) | Saved(id: int, qrUrl: string)

  const RequiredMessage := "Name, slug, and destination URL are required."
  const SlugInUseMessage := "This slug is already in use."
  const InvalidIdMessage := "Invalid QR code ID."
  const DeletedMessage := "QR code deleted successfully!"
  const ConfirmMessage := "Confirmation required. Type DELETE to confirm."
  const AllDeletedMessage := "All QR codes and click data have been permanently deleted."

  /** The $_POST fields of ajax_save_code; any of them may be missing. */
  datatype SavePost = SavePost(id: Option<int>, name: Option<string>, slug: Option<string>, destinationUrl: Option<string>,
                               description: Option<string>, isActive: Option<int>)

  /** The fields after their defaults: id 0, text '', is_active 1. */
  datatype SaveFields = SaveFields(id: int, name: string, slug: string, destinationUrl: string, description: string, isActive: int)

  function Fields(post: SavePost): (f: SaveFields)
    ensures post.id.None? ==> f.id == 0
    ensures post.id.Some? ==> f.id == post.id.value
    ensures post.isActive.None? ==> f.isActive == 1
    ensures post.isActive.Some? ==> f.isActive == post.isActive.value
    ensures Database.GivenOrEmpty(f.name, post.name) && Database.GivenOrEmpty(f.slug, post.slug)
    ensures Database.GivenOrEmpty(f.destinationUrl, post.destinationUrl)
    ensures Database.GivenOrEmpty(f.description, post.description)
  {
    SaveFields(post.id.GetOr(0), OrEmpty(post.name), OrEmpty(post.slug), OrEmpty(post.destinationUrl),
               OrEmpty(post.description), post.isActive.GetOr(1))
  }

  /** The validation of ajax_save_code: the required fields first, then the slug's uniqueness
      (`slugTaken` is slug_exists($slug, $id)). */
  function SaveError(f: SaveFields, slugTaken: bool): (e: Option<string>)
    ensures e.None? <==> !PhpEmpty(f.name) && !PhpEmpty(f.slug) && !PhpEmpty(f.destinationUrl) && !slugTaken
    ensures PhpEmpty(f.name) || PhpEmpty(f.slug) || PhpEmpty(f.destinationUrl) ==> e == Some(RequiredMessage)
    ensures !PhpEmpty(f.name) && !PhpEmpty(f.slug) && !PhpEmpty(f.destinationUrl) && slugTaken ==> e == Some(SlugInUseMessage)
  {
    if PhpEmpty(f.name) || PhpEmpty(f.slug) || PhpEmpty(f.destinationUrl) then Some(RequiredMessage)
    else if slugTaken then Some(SlugInUseMessage)
    else None
  }

  /** The $data array written by ajax_save_code: every column is given. */
  function UpdateData(f: SaveFields): (u: Database.UpdateInput)
    ensures !Database.NothingProvided(u)
    ensures u.slug == Some(f.slug)
  {
    Database.UpdateInput(Some(f.name), Some(f.slug), Some(f.destinationUrl), Some(f.description), Some(f.isActive))
  }

  function InsertData(f: SaveFields): Database.CodeInput {
    Database.CodeInput(f.name, f.slug, f.destinationUrl, Some(f.description), Some(f.isActive))
  }

  /** ajax_save_code: validation comes before any write; an id above 0 updates that row,
      otherwise a new row is inserted and its id returned. Update reports 0 rows (not
      false) for an unknown id, so that too is a success. */
  method SaveCode(store: Database.Store, post: SavePost, savedBase: string, home: string) returns (reply: SaveReply)
    requires store.Valid()
    modifies store
    ensures store.Valid()
    ensures var f := Fields(post);
      var err := SaveError(f, old(store.SlugExists(f.slug, f.id)));
      && (err.Some? ==> reply == SaveFailure(err.value) && store.codes == old(store.codes) && store.nextCodeId == old(store.nextCodeId))
      && (err.None? && f.id > 0 ==>
            (reply == Saved(f.id, Router.QrUrl(f.slug, None, savedBase, home))
             && store.nextCodeId == old(store.nextCodeId)
             && (Database.IndexOfId(old(store.codes), f.id).None? ==> store.codes == old(store.codes))
             && (Database.IndexOfId(old(store.codes), f.id).Some? ==>
                  var i := Database.IndexOfId(old(store.codes), f.id).value;
                  store.codes == old(store.codes)[i := Database.Updated(old(store.codes)[i], UpdateData(f))])))
      && (err.None? && f.id <= 0 ==>
            (reply == Saved(old(store.nextCodeId), Router.QrUrl(f.slug, None, savedBase, home))
             && store.codes == old(store.codes) + [Database.NewCode(old(store.nextCodeId), InsertData(f))]
             && store.nextCodeId == old(store.nextCodeId) + 1))
    ensures store.clicks == old(store.clicks) && store.nextClickId == old(store.nextClickId)
  {
    var f := Fields(post);
    var err := SaveError(f, store.SlugExists(f.slug, f.id));
    if err.Some? {
      return SaveFailure(err.value);
    }
    var id := f.id;
    var result: Option<nat>;
    if id > 0 {
      result := store.UpdateQrCode(id, UpdateData(f));
    } else {
      result := store.InsertQrCode(InsertData(f));
      if result.Some? {
        id := result.value;
      }
    }
    if result.None? {
      return SaveFailure("Failed to save QR code.");
    }
    reply := Saved(id, Router.QrUrl(f.slug, None, savedBase, home));
  }

  /** ajax_delete_code: ids of 0 or below are refused before anything is deleted. */
  method DeleteCode(store: Database.Store, postId: Option<int>) returns (reply: Reply)
    requires store.Valid()
    modifies store
    ensures store.Valid()
    ensures postId.GetOr(0) <= 0 ==>
      (reply == Failure(InvalidIdMessage) && store.codes == old(store.codes) && store.clicks == old(store.clicks))
    ensures postId.GetOr(0) > 0 ==>
      (reply == Success(DeletedMessage)
       && store.codes == Database.CodesNot(old(store.codes), postId.GetOr(0))
       && store.clicks == Database.ClicksNotOf(old(store.clicks), postId.GetOr(0)))
    ensures store.nextCodeId == old(store.nextCodeId) && store.nextClickId == old(store.nextClickId)
  {
    var id := postId.GetOr(0);
    if id <= 0 {
      return Failure(InvalidIdMessage);
    }
    var _ := store.DeleteQrCode(id);
    reply := Success(DeletedMessage);
  }

  /** ajax_delete_all_data: both tables are emptied only when the confirmation is exactly "DELETE". */
  method DeleteAllData(store: Database.Store, confirm: Option<string>) returns (reply: Reply)
    requires store.Valid()
    modifies store
    ensures store.Valid()
    ensures OrEmpty(confirm) != "DELETE" ==>
      (reply == Failure(ConfirmMessage) && store.codes == old(store.codes) && store.clicks == old(store.clicks)
       && store.nextCodeId == old(store.nextCodeId) && store.nextClickId == old(store.nextClickId))
    ensures OrEmpty(confirm) == "DELETE" ==>
      (reply == Success(AllDeletedMessage) && store.codes == [] && store.clicks == []
       && store.nextCodeId == 1 && store.nextClickId == 1)
  {
    if OrEmpty(confirm) != "DELETE" {
      return Failure(ConfirmMessage);
    }
    store.TruncateAll();
    reply := Success(AllDeletedMessage);
  }

  // ----- ajax_verify_data -----

  /** filter_var($url, FILTER_VALIDATE_URL): never true of the empty string; the rest of
      the URL grammar is the parameter `syntaxOk`. */
  predicate UrlValid(url: string, syntaxOk: string -> bool) {
    url != "" && syntaxOk(url)
  }

  /** The problems found in one code, in the order they are checked. */
  function Problems(c: Database.Code, syntaxOk: string -> bool): (p: seq<string>)
    ensures |p| <= 4
    ensures "Missing name" in p <==> PhpEmpty(c.name)
    ensures "Missing slug" in p <==> PhpEmpty(c.slug)
    ensures "Missing destination URL" in p <==> PhpEmpty(c.destinationUrl)
    ensures "Invalid destination URL format" in p <==> !UrlValid(c.destinationUrl, syntaxOk)
  {
    (if PhpEmpty(c.name) then ["Missing name"] else [])
    + (if PhpEmpty(c.slug) then ["Missing slug"] else [])
    + (if PhpEmpty(c.destinationUrl) then ["Missing destination URL"] else [])
    + (if !UrlValid(c.destinationUrl, syntaxOk) then ["Invalid destination URL format"] else [])
  }

  /** An empty destination is reported twice: as missing and as malformed. */
  lemma EmptyDestinationTwoProblems(c: Database.Code, syntaxOk: string -> bool)
    requires c.destinationUrl == ""
    ensures "Missing destination URL" in Problems(c, syntaxOk) && "Invalid destination URL format" in Problems(c, syntaxOk)
  {
  }

  /** One entry of the issues list. */
  datatype Issue = Issue(id: int, name: string, problems: seq<string>)

  /** `$code->name ?: sprintf('QR #%d', $code->id)` */
  function IssueName(c: Database.Code): (name: string)
    ensures !PhpEmpty(c.name) ==> name == c.name
    ensures PhpEmpty(c.name) ==> |name| > 4 && name[..4] == "QR #" && name != c.name
    ensures PhpEmpty(c.name) ==> IsDigits(name[4..]) && DecimalValue(name[4..]) == c.id
  {
    if PhpEmpty(c.name) then
      var digits := IntToString(c.id);
      var name := "QR #" + digits;
      assert name[4..] == digits;
      name
    else c.name
  }

  /** The issues of the codes, one per code with at least one problem, in table order. */
  function CodeIssues(codes: seq<Database.Code>, syntaxOk: string -> bool): (issues: seq<Issue>)
    ensures |issues| <= |codes|
    ensures forall k :: 0 <= k < |issues| ==> issues[k].problems != []
  {
    if codes == [] then []
    else
      var c := codes[|codes| - 1];
      var p := Problems(c, syntaxOk);
      CodeIssues(codes[..|codes| - 1], syntaxOk) + (if p != [] then [Issue(c.id, IssueName(c), p)] else [])
  }

  function ProblemTotal(issues: seq<Issue>): nat {
    if issues == [] then 0 else ProblemTotal(issues[..|issues| - 1]) + |issues[|issues| - 1].problems|
  }

  /** Number of codes with at least one problem. */
  function CodesWithProblems(codes: seq<Database.Code>, syntaxOk: string -> bool): nat {
    if codes == [] then 0
    else CodesWithProblems(codes[..|codes| - 1], syntaxOk) + (if Problems(codes[|codes| - 1], syntaxOk) != [] then 1 else 0)
  }

  /** Sum of the problem counts of all codes. */
  function AllProblems(codes: seq<Database.Code>, syntaxOk: string -> bool): nat {
    if codes == [] then 0 else AllProblems(codes[..|codes| - 1], syntaxOk) + |Problems(codes[|codes| - 1], syntaxOk)|
  }

  /** Only codes with a problem are listed, each with all of its problems. */
  lemma {:induction false} CodeIssuesCount(codes: seq<Database.Code>, syntaxOk: string -> bool)
    ensures |CodeIssues(codes, syntaxOk)| == CodesWithProblems(codes, syntaxOk)
    ensures ProblemTotal(CodeIssues(codes, syntaxOk)) == AllProblems(codes, syntaxOk)
  {
    if codes != [] {
      var init := codes[..|codes| - 1];
      CodeIssuesCount(init, syntaxOk);
      var c := codes[|codes| - 1];
      var p := Problems(c, syntaxOk);
      var issues := CodeIssues(codes, syntaxOk);
      if p != [] {
        assert issues == CodeIssues(init, syntaxOk) + [Issue(c.id, IssueName(c), p)];
        assert issues[..|issues| - 1] == CodeIssues(init, syntaxOk);
      } else {
        assert issues == CodeIssues(init, syntaxOk);
      }
    }
  }

  /** Every code with a problem is listed, under its own id and with its own problems. */
  lemma {:induction false} CodeIssuesListed(codes: seq<Database.Code>, syntaxOk: string -> bool, c: Database.Code)
    requires c in codes
    ensures Problems(c, syntaxOk) != [] ==> Issue(c.id, IssueName(c), Problems(c, syntaxOk)) in CodeIssues(codes, syntaxOk)
  {
    var init := codes[..|codes| - 1];
    if c != codes[|codes| - 1] {
      assert c in init;
      CodeIssuesListed(init, syntaxOk, c);
    }
  }

  /** Conversely, every listed issue is that of a code of the table that has problems, with those problems. */
  lemma {:induction false} CodeIssuesFromCodes(codes: seq<Database.Code>, syntaxOk: string -> bool, k: nat)
    requires k < |CodeIssues(codes, syntaxOk)|
    ensures exists c :: c in codes && Problems(c, syntaxOk) != []
                        && CodeIssues(codes, syntaxOk)[k] == Issue(c.id, IssueName(c), Problems(c, syntaxOk))
  {
    var init := codes[..|codes| - 1];
    var c := codes[|codes| - 1];
    var p := Problems(c, syntaxOk);
    if k < |CodeIssues(init, syntaxOk)| {
      CodeIssuesFromCodes(init, syntaxOk, k);
      var d :| d in init && Problems(d, syntaxOk) != [] && CodeIssues(init, syntaxOk)[k] == Issue(d.id, IssueName(d), Problems(d, syntaxOk));
      assert d in codes;
    } else {
      assert p != [] && CodeIssues(codes, syntaxOk)[k] == Issue(c.id, IssueName(c), p);
    }
  }

  /** Clicks whose qr_code_id matches no code (the LEFT JOIN ... WHERE q.id IS NULL count). */
  function Orphans(clicks: seq<Database.Click>, codes: seq<Database.Code>): (n: nat)
    ensures n <= |clicks|
    ensures n == 0 <==> forall k :: 0 <= k < |clicks| ==> Database.IndexOfId(codes, clicks[k].qrCodeId).Some?
  {
    if clicks == [] then 0
    else Orphans(clicks[..|clicks| - 1], codes) + (if Database.IndexOfId(codes, clicks[|clicks| - 1].qrCodeId).None? then 1 else 0)
  }

  datatype Stats = Stats(totalCodes: nat, totalClicks: nat, codesChecked: nat, issuesFound: nat)

  function OrphanIssue(orphans: nat): Issue {
    Issue(0, "Orphaned Click Records", [NatToString(orphans) + " click records with no associated QR code"])
  }

  /** The checks on one code, appending to $code_issues. */
  method CheckCode(c: Database.Code, syntaxOk: string -> bool) returns (problems: seq<string>)
    ensures problems == Problems(c, syntaxOk)
  {
    problems := [];
    if PhpEmpty(c.name) {
      problems := problems + ["Missing name"];
    }
    if PhpEmpty(c.slug) {
      problems := problems + ["Missing slug"];
    }
    if PhpEmpty(c.destinationUrl) {
      problems := problems + ["Missing destination URL"];
    }
    if !UrlValid(c.destinationUrl, syntaxOk) {
      problems := problems + ["Invalid destination URL format"];
    }
  }

  /** One more code adds its issue, if it has problems, at the end. */
  lemma CodeIssuesStep(codes: seq<Database.Code>, i: nat, syntaxOk: string -> bool)
    requires i < |codes|
    ensures var p := Problems(codes[i], syntaxOk);
      CodeIssues(codes[..i + 1], syntaxOk)
      == CodeIssues(codes[..i], syntaxOk) + (if p != [] then [Issue(codes[i].id, IssueName(codes[i]), p)] else [])
  {
    assert codes[..i + 1][..i] == codes[..i];
  }

  lemma ProblemTotalAppend(issues: seq<Issue>, e: Issue)
    ensures ProblemTotal(issues + [e]) == ProblemTotal(issues) + |e.problems|
  {
    assert (issues + [e])[..|issues|] == issues;
  }

  /** The loop over the codes of ajax_verify_data, growing $issues and the counters. */
  method CheckCodes(codes: seq<Database.Code>, syntaxOk: string -> bool) returns (issues: seq<Issue>, checked: nat, found: nat)
    ensures issues == CodeIssues(codes, syntaxOk)
    ensures checked == |codes| && found == ProblemTotal(issues)
  {
    issues, checked, found := [], 0, 0;
    var i := 0;
    while i < |codes|
      invariant 0 <= i <= |codes|
      invariant issues == CodeIssues(codes[..i], syntaxOk)
      invariant checked == i && found == ProblemTotal(issues)
    {
      var c := codes[i];
      checked := checked + 1;
      var problems := CheckCode(c, syntaxOk);
      CodeIssuesStep(codes, i, syntaxOk);
      if problems != [] {
        ProblemTotalAppend(issues, Issue(c.id, IssueName(c), problems));
        issues := issues + [Issue(c.id, IssueName(c), problems)];
        found := found + |problems|;
      }
      i := i + 1;
    }
    assert codes[..i] == codes;
  }

  /** ajax_verify_data: every code checked; issues_found is the number of problems over all
      listed codes, plus one for the orphaned-clicks entry when there are orphans. */
  method VerifyData(store: Database.Store, syntaxOk: string -> bool) returns (stats: Stats, issues: seq<Issue>, message: string)
    ensures stats.totalCodes == |store.codes| && stats.totalClicks == |store.clicks| && stats.codesChecked == |store.codes|
    ensures var orphans := Orphans(store.clicks, store.codes);
      issues == CodeIssues(store.codes, syntaxOk) + (if orphans > 0 then [OrphanIssue(orphans)] else [])
      && stats.issuesFound == AllProblems(store.codes, syntaxOk) + (if orphans > 0 then 1 else 0)
    ensures message == (if issues == [] then "All data integrity checks passed!"
                        else "Found " + NatToString(|issues|) + " issue(s) that need attention.")
  {
    var checked, found;
    issues, checked, found := CheckCodes(store.codes, syntaxOk);
    CodeIssuesCount(store.codes, syntaxOk);
    var orphans := Orphans(store.clicks, store.codes);
    if orphans > 0 {
      issues := issues + [OrphanIssue(orphans)];
      found := found + 1;
    }
    stats := Stats(|store.codes|, |store.clicks|, checked, found);
    message := if issues == [] then "All data integrity checks passed!"
               else "Found " + NatToString(|issues|) + " issue(s) that need attention.";
  }

  /** No issues are reported exactly when every code is clean and no click is orphaned. */
  lemma {:induction false} CleanDataNoIssues(codes: seq<Database.Code>, clicks: seq<Database.Click>, syntaxOk: string -> bool)
    ensures (CodeIssues(codes, syntaxOk) == [] && Orphans(clicks, codes) == 0)
        <==> (forall c :: c in codes ==> Problems(c, syntaxOk) == [])
             && (forall k :: 0 <= k < |clicks| ==> Database.IndexOfId(codes, clicks[k].qrCodeId).Some?)
  {
    forall c | c in codes
      ensures CodeIssues(codes, syntaxOk) == [] ==> Problems(c, syntaxOk) == []
    {
      CodeIssuesListed(codes, syntaxOk, c);
    }
    if forall c :: c in codes ==> Problems(c, syntaxOk) == [] {
      NoProblemsNoIssues(codes, syntaxOk);
    }
  }

  lemma {:induction false} NoProblemsNoIssues(codes: seq<Database.Code>, syntaxOk: string -> bool)
    requires forall c :: c in codes ==> Problems(c, syntaxOk) == []
    ensures CodeIssues(codes, syntaxOk) == []
  {
    if codes != [] {
      var init := codes[..|codes| - 1];
      assert forall c :: c in init ==> c in codes;
      NoProblemsNoIssues(init, syntaxOk);
      assert codes[|codes| - 1] in codes;
    }
  }
}
