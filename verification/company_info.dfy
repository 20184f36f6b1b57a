/** The company-info page (app/dashboard/company-info/page.tsx): the post-style
    checkboxes, loading the saved settings, and saving them. */
module CompanyInfo {
  import opened Wrappers
  import opened Lists
  import opened Remote
  import opened Status

  /** The page's state: the six form fields and its three status cells. */
  datatype Form = Form(
    fullname: string,
    businessName: string,
    website: string,
    serviceArea: string,
    industry: string,
    postStyle: seq<string>,
    isSaving: bool,
    isLoading: bool,
    message: Option<Message>)

  const SettingsColumns := "fullname, business_name, website, service_area, industry, post_style"
  const LoginRequiredText := "You must be logged in to save settings"
  const SavedText := "Company info saved successfully!"

  /** The form fields agree (the status cells may differ). */
  predicate SameFields(a: Form, b: Form)
  {
    && a.fullname == b.fullname && a.businessName == b.businessName && a.website == b.website
    && a.serviceArea == b.serviceArea && a.industry == b.industry && a.postStyle == b.postStyle
  }

  // ---------------------------------------------------------------------------
  // Post-style toggle

  /** togglePostStyle: a present value is dropped everywhere it occurs, an
      absent one is appended at the end. */
  function TogglePostStyle(prev: seq<string>, value: string): (r: seq<string>)
    ensures value in r <==> value !in prev
    ensures forall x :: x != value ==> (x in r <==> x in prev)
    ensures value !in prev ==> r == prev + [value]
    ensures value in prev ==>
      && IsSubsequence(r, prev)
      && forall x :: multiset(r)[x] == if x == value then 0 else multiset(prev)[x]
  {
    if value in prev then RemoveAll(prev, value) else prev + [value]
  }

  /** Ticking an unticked style and unticking it again restores the list exactly. */
  lemma ToggleTwiceRestoresAbsent(prev: seq<string>, value: string)
    requires value !in prev
    ensures TogglePostStyle(TogglePostStyle(prev, value), value) == prev
  {
    RemoveAllAppend(prev, [value], value);
    RemoveAllAbsent(prev, value);
    assert RemoveAll([value], value) == [];
  }

  /** Unticking a ticked style of a duplicate-free list and ticking it again
      gives the same selection, with that style moved to the end. */
  lemma ToggleTwiceMovesPresentToEnd(prev: seq<string>, value: string)
    requires NoDuplicates(prev) && value in prev
    ensures var r := TogglePostStyle(TogglePostStyle(prev, value), value);
      multiset(r) == multiset(prev) && r[|r| - 1] == value
  {
    var removed := TogglePostStyle(prev, value);
    var r := removed + [value];
    NoDuplicatesOccurOnce(prev, value);
    assert forall x :: multiset(r)[x] == multiset(prev)[x];
  }

  /** A duplicate-free selection stays duplicate-free under any toggle. */
  lemma ToggleKeepsNoDuplicates(prev: seq<string>, value: string)
    requires NoDuplicates(prev)
    ensures NoDuplicates(TogglePostStyle(prev, value))
  {
    if value in prev {
      RemoveAllKeepsNoDuplicates(prev, value);
    } else {
      AppendFreshKeepsNoDuplicates(prev, value);
    }
  }

  // ---------------------------------------------------------------------------
  // Loading

  /** The columns of the single `brand_settings` row the page reads; any of
      them may be null. */
  datatype SettingsData = SettingsData(
    fullname: Option<string>,
    businessName: Option<string>,
    website: Option<string>,
    serviceArea: Option<string>,
    industry: Option<string>,
    postStyle: Option<seq<string>>)

  /** The calls made and the page state afterwards. */
  datatype Outcome = Outcome(trace: seq<Effect>, form: Form)

  /** loadSettings, with `user` the signed-in user and `data` the row the
      query returns (None when it returns none). */
  function LoadSettings(f: Form, user: Option<string>, data: Option<SettingsData>): (r: Outcome)
    ensures !r.form.isLoading
    ensures r.form.isSaving == f.isSaving && r.form.message == f.message
    ensures user.None? ==> r.trace == [GetUser]
    ensures user.Some? ==>
      r.trace == [GetUser, SelectSingle(BrandSettingsTable, SettingsColumns, CustomerIdColumn, user.value)]
    ensures user.None? || data.None? ==> SameFields(f, r.form)
    ensures user.Some? && data.Some? ==>
      var row := data.value;
      && (row.fullname.None? ==> r.form.fullname == "")
      && (row.fullname.Some? ==> r.form.fullname == row.fullname.value)
      && (row.businessName.None? ==> r.form.businessName == "")
      && (row.businessName.Some? ==> r.form.businessName == row.businessName.value)
      && (row.website.None? ==> r.form.website == "")
      && (row.website.Some? ==> r.form.website == row.website.value)
      && (row.serviceArea.None? ==> r.form.serviceArea == "")
      && (row.serviceArea.Some? ==> r.form.serviceArea == row.serviceArea.value)
      && (row.industry.None? ==> r.form.industry == "")
      && (row.industry.Some? ==> r.form.industry == row.industry.value)
      && (row.postStyle.None? ==> r.form.postStyle == [])
      && (row.postStyle.Some? ==> r.form.postStyle == row.postStyle.value)
  {
    match user
    case None => Outcome([GetUser], f.(isLoading := false))
    case Some(uid) =>
      var trace := [GetUser, SelectSingle(BrandSettingsTable, SettingsColumns, CustomerIdColumn, uid)];
      match data
      case None => Outcome(trace, f.(isLoading := false))
      case Some(row) =>
        Outcome(trace, f.(
          fullname := row.fullname.GetOr(""),
          businessName := row.businessName.GetOr(""),
          website := row.website.GetOr(""),
          serviceArea := row.serviceArea.GetOr(""),
          industry := row.industry.GetOr(""),
          postStyle := row.postStyle.GetOr([]),
          isLoading := false))
  }

  // ---------------------------------------------------------------------------
  // Saving

  /** The row upserted for `userId`. */
  function SettingsRowFor(f: Form, userId: string): SettingsRow
  {
    SettingsRow(userId, f.fullname, f.businessName, f.website, f.serviceArea, f.industry, f.postStyle)
  }

  /** handleSave, with `user` the signed-in user and `upsertError` the message
      of the error the upsert returns, if any. */
  function Save(f: Form, user: Option<string>, upsertError: Option<string>): (r: Outcome)
    ensures !r.form.isSaving
    ensures SameFields(f, r.form) && r.form.isLoading == f.isLoading
    ensures user.None? ==>
      r.trace == [GetUser] && r.form.message == Some(ErrorMessage(LoginRequiredText))
    ensures user.Some? ==>
      && |r.trace| == 2 && r.trace[0] == GetUser
      && r.trace[1].Upsert? && r.trace[1].table == BrandSettingsTable && r.trace[1].onConflict == CustomerIdColumn
      && r.trace[1].settings.customerId == user.value
      && r.trace[1].settings.fullname == f.fullname
      && r.trace[1].settings.businessName == f.businessName
      && r.trace[1].settings.website == f.website
      && r.trace[1].settings.serviceArea == f.serviceArea
      && r.trace[1].settings.industry == f.industry
      && r.trace[1].settings.postStyle == f.postStyle
    ensures user.Some? && upsertError.Some? ==> r.form.message == Some(ErrorMessage(upsertError.value))
    ensures user.Some? && upsertError.None? ==> r.form.message == Some(SuccessMessage(SavedText))
  {
    var busy := f.(isSaving := true, message := None);
    match user
    case None => Outcome([GetUser], busy.(message := Some(ErrorMessage(LoginRequiredText)), isSaving := false))
    case Some(uid) =>
      var trace := [GetUser, Upsert(BrandSettingsTable, SettingsRowFor(f, uid), CustomerIdColumn)];
      var message := match upsertError
        case Some(text) => ErrorMessage(text)
        case None => SuccessMessage(SavedText);
      Outcome(trace, busy.(message := Some(message), isSaving := false))
  }

  /** The stored row as the page's select reads it back. */
  function ReadBack(row: SettingsRow): SettingsData
  {
    SettingsData(Some(row.fullname), Some(row.businessName), Some(row.website),
                 Some(row.serviceArea), Some(row.industry), Some(row.postStyle))
  }

  /** What the page saves is what it loads: if the store returns the upserted
      row, loading it into any page state restores every saved field. */
  lemma SaveThenLoadRestoresFields(f: Form, g: Form, userId: string, upsertError: Option<string>)
    ensures var saved := Save(f, Some(userId), upsertError);
      SameFields(f, LoadSettings(g, Some(userId), Some(ReadBack(saved.trace[1].settings))).form)
  {
  }
}
