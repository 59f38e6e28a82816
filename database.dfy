/** The plugin's two tables (QR codes and their clicks) as an in-memory store, and
    the argument builders that QR_Database passes to $wpdb: WHERE conditions with
    their prepared-statement parameters, the column/format lists of an update, and
    the defaults filled in on insert. SQL execution itself is replaced by the
    store's own operations. */
module Database {
  import opened Text

  /** A row of the qr_codes table. Ids start at 1 (AUTO_INCREMENT). */
  datatype Code = Code(id: nat, name: string, slug: string, destinationUrl: string, description: string, isActive: int)

  /** A row of the qr_clicks table; clicked_at is filled in by the database clock and is not modelled. */
  datatype Click = Click(id: nat, qrCodeId: int, ipAddress: string, userAgent: string, referer: string,
                         country: string, city: string, deviceType: string, browser: string, os: string)

  /** The $data array given to insert_qr_code; description and is_active may be absent. */
  datatype CodeInput = CodeInput(name: string, slug: string, destinationUrl: string,
                                 description: Option<string>, isActive: Option<int>)

  /** The $data array given to update_qr_code: every key may be absent. */
  datatype UpdateInput = UpdateInput(name: Option<string>, slug: Option<string>, destinationUrl: Option<string>,
                                     description: Option<string>, isActive: Option<int>)

  /** The $data array given to record_click: every metadata key may be absent. */
  datatype ClickInput = ClickInput(ipAddress: Option<string>, userAgent: Option<string>, referer: Option<string>,
                                   country: Option<string>, city: Option<string>, deviceType: Option<string>,
                                   browser: Option<string>, os: Option<string>)

  /** A value bound to a placeholder or written to a column. */
  datatype Param = IntParam(i: int) | StrParam(s: string)

  /** The row insert_qr_code writes: description defaults to '' and is_active to 1. */
  function NewCode(id: nat, data: CodeInput): (c: Code)
    ensures c.id == id && c.name == data.name && c.slug == data.slug && c.destinationUrl == data.destinationUrl
    ensures data.description.None? ==> c.description == ""
    ensures data.description.Some? ==> c.description == data.description.value
    ensures data.isActive.None? ==> c.isActive == 1
    ensures data.isActive.Some? ==> c.isActive == data.isActive.value
  {
    Code(id, data.name, data.slug, data.destinationUrl, data.description.GetOr(""), data.isActive.GetOr(1))
  }

  /** A column written from an optional key: the given value when the key is set, '' otherwise. */
  predicate GivenOrEmpty(column: string, given: Option<string>) {
    (given.Some? ==> column == given.value) && (given.None? ==> column == "")
  }

  /** A column after an update: the given value when the key is set, the old value otherwise. */
  predicate GivenOrKept<T(==)>(column: T, given: Option<T>, previous: T) {
    (given.Some? ==> column == given.value) && (given.None? ==> column == previous)
  }

  /** The row record_click writes: every missing metadata field becomes ''. */
  function NewClick(id: nat, qrCodeId: int, data: ClickInput): (c: Click)
    ensures c.id == id && c.qrCodeId == qrCodeId
    ensures GivenOrEmpty(c.ipAddress, data.ipAddress) && GivenOrEmpty(c.userAgent, data.userAgent)
    ensures GivenOrEmpty(c.referer, data.referer) && GivenOrEmpty(c.country, data.country)
    ensures GivenOrEmpty(c.city, data.city) && GivenOrEmpty(c.deviceType, data.deviceType)
    ensures GivenOrEmpty(c.browser, data.browser) && GivenOrEmpty(c.os, data.os)
    ensures data == ClickInput(None, None, None, None, None, None, None, None) ==>
      c == Click(id, qrCodeId, "", "", "", "", "", "", "", "")
  {
    Click(id, qrCodeId, OrEmpty(data.ipAddress), OrEmpty(data.userAgent), OrEmpty(data.referer),
          OrEmpty(data.country), OrEmpty(data.city), OrEmpty(data.deviceType), OrEmpty(data.browser), OrEmpty(data.os))
  }

  /** The row as changed by update_qr_code: provided keys replace their column, the rest stay. */
  function Updated(c: Code, data: UpdateInput): (u: Code)
    ensures u.id == c.id
    ensures GivenOrKept(u.name, data.name, c.name) && GivenOrKept(u.slug, data.slug, c.slug)
    ensures GivenOrKept(u.destinationUrl, data.destinationUrl, c.destinationUrl)
    ensures GivenOrKept(u.description, data.description, c.description) && GivenOrKept(u.isActive, data.isActive, c.isActive)
    ensures NothingProvided(data) ==> u == c
  {
    Code(c.id, data.name.GetOr(c.name), data.slug.GetOr(c.slug), data.destinationUrl.GetOr(c.destinationUrl),
         data.description.GetOr(c.description), data.isActive.GetOr(c.isActive))
  }

  /** The columns update_qr_code may set, declared in the order it considers them. */
  datatype Column = Name | Slug | DestinationUrl | Description | IsActive

  /** The column's name in the table. */
  function ColumnName(c: Column): string {
    match c
    case Name => "name"
    case Slug => "slug"
    case DestinationUrl => "destination_url"
    case Description => "description"
    case IsActive => "is_active"
  }

  function Rank(c: Column): nat {
    match c
    case Name => 0
    case Slug => 1
    case DestinationUrl => 2
    case Description => 3
    case IsActive => 4
  }

  /** The value the update input provides for a column, if any. */
  function Provided(data: UpdateInput, c: Column): Option<Param> {
    match c
    case Name => if data.name.Some? then Some(StrParam(data.name.value)) else None
    case Slug => if data.slug.Some? then Some(StrParam(data.slug.value)) else None
    case DestinationUrl => if data.destinationUrl.Some? then Some(StrParam(data.destinationUrl.value)) else None
    case Description => if data.description.Some? then Some(StrParam(data.description.value)) else None
    case IsActive => if data.isActive.Some? then Some(IntParam(data.isActive.value)) else None
  }

  predicate NothingProvided(data: UpdateInput) {
    data.name.None? && data.slug.None? && data.destinationUrl.None? && data.description.None? && data.isActive.None?
  }

  /** The format of a column's value: '%d' for is_active, '%s' for the text columns. */
  function Format(c: Column): string {
    if c == IsActive then "%d" else "%s"
  }

  /** Adds the column if the input provides it, with its format alongside. */
  method AppendColumn(columns: seq<(Column, Param)>, format: seq<string>, data: UpdateInput, c: Column)
    returns (columns': seq<(Column, Param)>, format': seq<string>)
    ensures Provided(data, c).Some? ==> columns' == columns + [(c, Provided(data, c).value)] && format' == format + [Format(c)]
    ensures Provided(data, c).None? ==> columns' == columns && format' == format
    ensures ColumnsSoFar(columns, format, data, Rank(c)) ==> ColumnsSoFar(columns', format', data, Rank(c) + 1)
  {
    columns', format' := columns, format;
    var v := Provided(data, c);
    if v.Some? {
      columns', format' := columns + [(c, v.value)], format + [Format(c)];
    }
    if ColumnsSoFar(columns, format, data, Rank(c)) {
      AppendColumnStep(columns, format, data, c, columns', format');
    }
  }

  /** The invariant of the $update_data / $format arrays after considering the columns below rank n. */
  predicate ColumnsSoFar(columns: seq<(Column, Param)>, format: seq<string>, data: UpdateInput, n: nat) {
    |columns| == |format|
    && (forall i :: 0 <= i < |columns| ==> Rank(columns[i].0) < n && Provided(data, columns[i].0) == Some(columns[i].1))
    && (forall c: Column :: Rank(c) < n && Provided(data, c).Some? ==> (c, Provided(data, c).value) in columns)
    && (forall i, j :: 0 <= i < j < |columns| ==> Rank(columns[i].0) < Rank(columns[j].0))
    && (forall i :: 0 <= i < |format| ==> format[i] == Format(columns[i].0))
  }

  lemma AppendColumnStep(columns: seq<(Column, Param)>, format: seq<string>, data: UpdateInput, c: Column,
                         columns': seq<(Column, Param)>, format': seq<string>)
    requires ColumnsSoFar(columns, format, data, Rank(c))
    requires Provided(data, c).Some? ==> columns' == columns + [(c, Provided(data, c).value)] && format' == format + [Format(c)]
    requires Provided(data, c).None? ==> columns' == columns && format' == format
    ensures ColumnsSoFar(columns', format', data, Rank(c) + 1)
  {
    forall d: Column | Rank(d) < Rank(c) + 1 && Provided(data, d).Some?
      ensures (d, Provided(data, d).value) in columns'
    {
      if d != c {
        assert Rank(d) < Rank(c);
      }
    }
  }

  /** The $update_data / $format arrays of update_qr_code, built one key at a time: exactly the
      provided columns, each with its value, in declaration order, with one format per column. */
  method UpdateColumns(data: UpdateInput) returns (columns: seq<(Column, Param)>, format: seq<string>)
    ensures ColumnsSoFar(columns, format, data, 5)
    ensures columns == [] <==> NothingProvided(data)
  {
    columns, format := [], [];
    var c', f';
    c', f' := AppendColumn(columns, format, data, Name);
    columns, format := c', f';
    c', f' := AppendColumn(columns, format, data, Slug);
    columns, format := c', f';
    c', f' := AppendColumn(columns, format, data, DestinationUrl);
    columns, format := c', f';
    c', f' := AppendColumn(columns, format, data, Description);
    columns, format := c', f';
    c', f' := AppendColumn(columns, format, data, IsActive);
    columns, format := c', f';
    NoColumnsIffNothing(columns, format, data);
  }

  /** An update has no columns exactly when the input provides none of them. */
  lemma NoColumnsIffNothing(columns: seq<(Column, Param)>, format: seq<string>, data: UpdateInput)
    requires ColumnsSoFar(columns, format, data, 5)
    ensures columns == [] <==> NothingProvided(data)
  {
    if columns != [] {
      var c := columns[0].0;
      assert Provided(data, c).Some?;
    } else {
      assert Rank(Name) < 5 && Rank(Slug) < 5 && Rank(DestinationUrl) < 5 && Rank(Description) < 5 && Rank(IsActive) < 5;
    }
  }

  // ----- row selection -----

  /** The position of the row with the given id. */
  function IndexOfId(codes: seq<Code>, id: int): (r: Option<nat>)
    ensures r.Some? ==> r.value < |codes| && codes[r.value].id == id
    ensures r.None? ==> forall i :: 0 <= i < |codes| ==> codes[i].id != id
  {
    if codes == [] then None
    else if codes[|codes| - 1].id == id then Some(|codes| - 1)
    else IndexOfId(codes[..|codes| - 1], id)
  }

  /** `SELECT COUNT(*) ... WHERE slug = %s [AND id != %d]` */
  function CountSlug(codes: seq<Code>, slug: string, excludeId: int): (n: nat)
    ensures n <= |codes|
    ensures n == 0 <==> forall i :: 0 <= i < |codes| ==> !(codes[i].slug == slug && (excludeId > 0 ==> codes[i].id != excludeId))
  {
    if codes == [] then 0
    else
      var last := codes[|codes| - 1];
      CountSlug(codes[..|codes| - 1], slug, excludeId) + (if last.slug == slug && (excludeId > 0 ==> last.id != excludeId) then 1 else 0)
  }

  /** The first row with the slug that is active (is_active = 1). */
  function ActiveBySlug(codes: seq<Code>, slug: string): (r: Option<Code>)
    ensures r.Some? ==> r.value in codes && r.value.slug == slug && r.value.isActive == 1
    ensures r.None? ==> forall c :: c in codes && c.slug == slug ==> c.isActive != 1
  {
    if codes == [] then None
    else if codes[0].slug == slug && codes[0].isActive == 1 then Some(codes[0])
    else ActiveBySlug(codes[1..], slug)
  }

  /** Clicks of every code but `id`. */
  function ClicksNotOf(clicks: seq<Click>, id: int): (r: seq<Click>)
    ensures forall c :: c in r <==> c in clicks && c.qrCodeId != id
    ensures |r| <= |clicks|
  {
    if clicks == [] then []
    else ClicksNotOf(clicks[..|clicks| - 1], id) + (if clicks[|clicks| - 1].qrCodeId != id then [clicks[|clicks| - 1]] else [])
  }

  /** Rows other than `id`. */
  function CodesNot(codes: seq<Code>, id: int): (r: seq<Code>)
    ensures forall c :: c in r <==> c in codes && c.id != id
    ensures |r| <= |codes|
  {
    if codes == [] then []
    else CodesNot(codes[..|codes| - 1], id) + (if codes[|codes| - 1].id != id then [codes[|codes| - 1]] else [])
  }

  /** `SELECT COUNT(*) ... WHERE qr_code_id = %d` */
  function ClickCount(clicks: seq<Click>, id: int): (n: nat)
    ensures n <= |clicks|
    ensures n == 0 <==> forall i :: 0 <= i < |clicks| ==> clicks[i].qrCodeId != id
  {
    if clicks == [] then 0
    else ClickCount(clicks[..|clicks| - 1], id) + (if clicks[|clicks| - 1].qrCodeId == id then 1 else 0)
  }

  /** Recording one more click for a code raises its count by one and leaves the others alone. */
  lemma ClickCountAppend(clicks: seq<Click>, c: Click, id: int)
    ensures ClickCount(clicks + [c], id) == ClickCount(clicks, id) + (if c.qrCodeId == id then 1 else 0)
  {
    assert (clicks + [c])[..|clicks + [c]| - 1] == clicks;
  }

  /** `SELECT COUNT(*) ... WHERE is_active = 1` */
  function ActiveCount(codes: seq<Code>): (n: nat)
    ensures n <= |codes|
    ensures n == |codes| <==> forall i :: 0 <= i < |codes| ==> codes[i].isActive == 1
  {
    if codes == [] then 0
    else ActiveCount(codes[..|codes| - 1]) + (if codes[|codes| - 1].isActive == 1 then 1 else 0)
  }

  /** The primary and unique keys of qr_codes, with `next` the next AUTO_INCREMENT value. */
  ghost predicate CodesKeyed(codes: seq<Code>, next: nat) {
    1 <= next
    && (forall i :: 0 <= i < |codes| ==> 1 <= codes[i].id < next)
    && (forall i, j :: 0 <= i < j < |codes| ==> codes[i].id != codes[j].id && codes[i].slug != codes[j].slug)
  }

  /** The primary key of qr_clicks. */
  ghost predicate ClicksKeyed(clicks: seq<Click>, next: nat) {
    1 <= next
    && (forall i :: 0 <= i < |clicks| ==> 1 <= clicks[i].id < next)
    && (forall i, j :: 0 <= i < j < |clicks| ==> clicks[i].id != clicks[j].id)
  }

  /** The store: rows of both tables and the next AUTO_INCREMENT values. */
  class Store {
    var codes: seq<Code>
    var clicks: seq<Click>
    var nextCodeId: nat
    var nextClickId: nat

    /** The table keys: ids positive, below the next id and distinct; slugs distinct (UNIQUE KEY slug). */
    ghost predicate Valid()
      reads this
    {
      CodesKeyed(codes, nextCodeId) && ClicksKeyed(clicks, nextClickId)
    }

    constructor ()
      ensures Valid() && codes == [] && clicks == [] && nextCodeId == 1 && nextClickId == 1
    {
      codes, clicks, nextCodeId, nextClickId := [], [], 1, 1;
    }

    /** get_qr_code */
    function CodeById(id: int): (r: Option<Code>)
      reads this
      ensures r.Some? ==> r.value in codes && r.value.id == id
      ensures r.None? ==> forall c :: c in codes ==> c.id != id
    {
      match IndexOfId(codes, id)
      case Some(i) => Some(codes[i])
      case None => None
    }

    /** get_qr_code_by_slug: only active rows are found. */
    function CodeBySlug(slug: string): (r: Option<Code>)
      reads this
      ensures r.Some? ==> r.value in codes && r.value.slug == slug && r.value.isActive == 1
      ensures r.None? ==> forall c :: c in codes && c.slug == slug ==> c.isActive != 1
    {
      ActiveBySlug(codes, slug)
    }

    /** slug_exists: with excludeId > 0 the row with that id is ignored, otherwise every row counts. */
    predicate SlugExists(slug: string, excludeId: int)
      reads this
      ensures SlugExists(slug, excludeId) <==>
        exists i :: 0 <= i < |codes| && codes[i].slug == slug && (excludeId > 0 ==> codes[i].id != excludeId)
    {
      CountSlug(codes, slug, excludeId) > 0
    }

    /** get_click_count */
    function ClickCountOf(id: int): (n: nat)
      reads this
      ensures n <= |clicks|
    {
      ClickCount(clicks, id)
    }

    /** insert_qr_code: the new id, or None when the UNIQUE slug key rejects the row. */
    method InsertQrCode(data: CodeInput) returns (r: Option<nat>)
      requires Valid()
      modifies this
      ensures Valid()
      ensures old(SlugExists(data.slug, 0)) ==> r.None? && codes == old(codes) && nextCodeId == old(nextCodeId)
      ensures !old(SlugExists(data.slug, 0)) ==>
        r == Some(old(nextCodeId)) && codes == old(codes) + [NewCode(old(nextCodeId), data)] && nextCodeId == old(nextCodeId) + 1
      ensures clicks == old(clicks) && nextClickId == old(nextClickId)
    {
      if SlugExists(data.slug, 0) {
        return None;
      }
      r := Some(nextCodeId);
      codes := codes + [NewCode(nextCodeId, data)];
      nextCodeId := nextCodeId + 1;
    }

    /** update_qr_code: the number of rows changed, or None when the update has no
        columns (an invalid statement) or the new slug belongs to another row. */
    method UpdateQrCode(id: int, data: UpdateInput) returns (r: Option<nat>)
      requires Valid()
      modifies this
      ensures Valid()
      ensures NothingProvided(data) ==> r.None? && codes == old(codes)
      ensures !NothingProvided(data) && data.slug.Some? && IndexOfId(old(codes), id).Some? && old(SlugExists(data.slug.value, id)) ==>
        r.None? && codes == old(codes)
      ensures r.None? ==> codes == old(codes) && (NothingProvided(data) || (data.slug.Some? && old(SlugExists(data.slug.value, id))))
      ensures r.Some? ==> !NothingProvided(data)
      ensures r.Some? && IndexOfId(old(codes), id).None? ==> r == Some(0) && codes == old(codes)
      ensures !NothingProvided(data) && IndexOfId(old(codes), id).None? ==> r == Some(0) && codes == old(codes)
      ensures r.Some? && IndexOfId(old(codes), id).Some? ==>
        var i := IndexOfId(old(codes), id).value;
        codes == old(codes)[i := Updated(old(codes)[i], data)]
        && r == Some(if Updated(old(codes)[i], data) == old(codes)[i] then 0 else 1)
      ensures clicks == old(clicks) && nextCodeId == old(nextCodeId) && nextClickId == old(nextClickId)
    {
      var columns, format := UpdateColumns(data);
      if columns == [] {
        return None;
      }
      var found := IndexOfId(codes, id);
      if found.None? {
        return Some(0);
      }
      var i := found.value;
      var row := Updated(codes[i], data);
      if exists j :: 0 <= j < |codes| && j != i && codes[j].slug == row.slug {
        var j :| 0 <= j < |codes| && j != i && codes[j].slug == row.slug;
        assert data.slug.Some? && codes[j].id != id;
        return None;
      }
      if data.slug.Some? {
        assert !SlugExists(data.slug.value, id);
      }
      r := Some(if row == codes[i] then 0 else 1);
      codes := codes[i := row];
    }

    /** delete_qr_code: first the code's clicks, then the code row; the number of code rows deleted. */
    method DeleteQrCode(id: int) returns (r: nat)
      requires Valid()
      modifies this
      ensures Valid()
      ensures clicks == ClicksNotOf(old(clicks), id) && codes == CodesNot(old(codes), id)
      ensures r == |old(codes)| - |codes|
      ensures nextCodeId == old(nextCodeId) && nextClickId == old(nextClickId)
    {
      ClicksNotOfKeyed(clicks, nextClickId, id);
      clicks := ClicksNotOf(clicks, id);
      var before := |codes|;
      CodesNotKeyed(codes, nextCodeId, id);
      codes := CodesNot(codes, id);
      r := before - |codes|;
    }

    /** record_click: one row, with '' for every metadata field not given. */
    method RecordClick(qrCodeId: int, data: ClickInput)
      requires Valid()
      modifies this
      ensures Valid()
      ensures clicks == old(clicks) + [NewClick(old(nextClickId), qrCodeId, data)] && nextClickId == old(nextClickId) + 1
      ensures codes == old(codes) && nextCodeId == old(nextCodeId)
    {
      clicks := clicks + [NewClick(nextClickId, qrCodeId, data)];
      nextClickId := nextClickId + 1;
    }

    /** TRUNCATE TABLE on both tables: every row goes and AUTO_INCREMENT restarts at 1. */
    method TruncateAll()
      modifies this
      ensures Valid() && codes == [] && clicks == [] && nextCodeId == 1 && nextClickId == 1
    {
      codes, clicks, nextCodeId, nextClickId := [], [], 1, 1;
    }

    /** get_total_stats: all codes, active codes, and the query that counts the clicks. */
    method TotalStats(clicksTable: string, startDate: Option<string>, endDate: Option<string>)
      returns (totalCodes: nat, activeCodes: nat, clicksCall: QueryCall)
      ensures totalCodes == |codes| && activeCodes == ActiveCount(codes) && activeCodes <= totalCodes
      ensures clicksCall.Prepared? <==> !(PhpEmptyOpt(startDate) && PhpEmptyOpt(endDate))
    {
      totalCodes := |codes|;
      activeCodes := ActiveCount(codes);
      clicksCall := TotalClicksCall(clicksTable, startDate, endDate);
    }
  }

  /** Deleting a code's row keeps the keys of qr_codes. */
  lemma {:induction false} CodesNotKeyed(codes: seq<Code>, next: nat, id: int)
    requires CodesKeyed(codes, next)
    ensures CodesKeyed(CodesNot(codes, id), next)
  {
    if codes != [] {
      var init := codes[..|codes| - 1];
      var last := codes[|codes| - 1];
      CodesNotKeyed(init, next, id);
      var r := CodesNot(init, id);
      if last.id != id {
        forall c | c in r
          ensures c.id != last.id && c.slug != last.slug
        {
          var k :| 0 <= k < |init| && init[k] == c;
          assert codes[k] == c;
        }
        CodesKeyedSnoc(r, last, next);
      }
    }
  }

  lemma CodesKeyedSnoc(r: seq<Code>, last: Code, next: nat)
    requires CodesKeyed(r, next) && 1 <= last.id < next
    requires forall c :: c in r ==> c.id != last.id && c.slug != last.slug
    ensures CodesKeyed(r + [last], next)
  {
    var s := r + [last];
    forall i, j | 0 <= i < j < |s|
      ensures s[i].id != s[j].id && s[i].slug != s[j].slug
    {
      if j == |r| {
        assert s[i] == r[i] && r[i] in r;
      } else {
        assert s[i] == r[i] && s[j] == r[j];
      }
    }
  }

  /** Deleting a code's clicks keeps the key of qr_clicks. */
  lemma {:induction false} ClicksNotOfKeyed(clicks: seq<Click>, next: nat, id: int)
    requires ClicksKeyed(clicks, next)
    ensures ClicksKeyed(ClicksNotOf(clicks, id), next)
  {
    if clicks != [] {
      var init := clicks[..|clicks| - 1];
      var last := clicks[|clicks| - 1];
      ClicksNotOfKeyed(init, next, id);
      var r := ClicksNotOf(init, id);
      if last.qrCodeId != id {
        forall c | c in r
          ensures c.id != last.id
        {
          var k :| 0 <= k < |init| && init[k] == c;
          assert clicks[k] == c;
        }
        ClicksKeyedSnoc(r, last, next);
      }
    }
  }

  lemma ClicksKeyedSnoc(r: seq<Click>, last: Click, next: nat)
    requires ClicksKeyed(r, next) && 1 <= last.id < next
    requires forall c :: c in r ==> c.id != last.id
    ensures ClicksKeyed(r + [last], next)
  {
    var s := r + [last];
    forall i, j | 0 <= i < j < |s|
      ensures s[i].id != s[j].id
    {
      if j == |r| {
        assert s[i] == r[i] && r[i] in r;
      } else {
        assert s[i] == r[i] && s[j] == r[j];
      }
    }
  }

  // ----- WHERE clauses and parameters -----

  /** One condition of a WHERE clause: column, comparison and the placeholder of its value. */
  datatype Filter = Filter(column: string, op: string, value: Param)

  function Placeholder(p: Param): string {
    if p.IntParam? then "%d" else "%s"
  }

  function ConditionText(f: Filter): string {
    f.column + " " + f.op + " " + Placeholder(f.value)
  }

  /** PHP truthiness of the optional code id: null and 0 add no filter. */
  predicate TruthyId(id: Option<int>) {
    id.Some? && id.value != 0
  }

  /** The date conditions on `column`, in order start then end. */
  function DateFilters(column: string, startDate: Option<string>, endDate: Option<string>): seq<Filter> {
    (if !PhpEmptyOpt(startDate) then [Filter(column, ">=", StrParam(startDate.value))] else [])
    + (if !PhpEmptyOpt(endDate) then [Filter(column, "<=", StrParam(endDate.value))] else [])
  }

  /** The conditions of get_clicks_by_date/device/country, in order id, start, end. */
  function ClickFilters(qrCodeId: Option<int>, startDate: Option<string>, endDate: Option<string>): seq<Filter> {
    (if TruthyId(qrCodeId) then [Filter("qr_code_id", "=", IntParam(qrCodeId.value))] else [])
    + DateFilters("clicked_at", startDate, endDate)
  }

  /** The $where and $params arrays, grown together one filter at a time: if they are in lock step
      with the filters `done` so far, they stay in lock step with `done` followed by `f`. */
  method AppendFilter(where: seq<string>, params: seq<Param>, f: Filter, ghost done: seq<Filter>)
    returns (where': seq<string>, params': seq<Param>)
    ensures where' == where + [ConditionText(f)] && params' == params + [f.value]
    ensures Lockstep(where, params, done) ==> Lockstep(where', params', done + [f])
  {
    where' := where + [ConditionText(f)];
    params' := params + [f.value];
  }

  /** Lock step: the i-th condition's placeholder belongs to the i-th parameter. */
  predicate Lockstep(where: seq<string>, params: seq<Param>, filters: seq<Filter>) {
    |where| == |params| == |filters|
    && forall i :: 0 <= i < |filters| ==> where[i] == ConditionText(filters[i]) && params[i] == filters[i].value
  }

  /** The $where/$params building shared by get_clicks_by_date, get_clicks_by_device and get_clicks_by_country. */
  method BuildClickFilters(qrCodeId: Option<int>, startDate: Option<string>, endDate: Option<string>)
    returns (where: seq<string>, params: seq<Param>)
    ensures Lockstep(where, params, ClickFilters(qrCodeId, startDate, endDate))
  {
    where, params := [], [];
    ghost var done: seq<Filter> := [];
    if TruthyId(qrCodeId) {
      var f := Filter("qr_code_id", "=", IntParam(qrCodeId.value));
      where, params := AppendFilter(where, params, f, done);
      done := done + [f];
    }
    if !PhpEmptyOpt(startDate) {
      var f := Filter("clicked_at", ">=", StrParam(startDate.value));
      where, params := AppendFilter(where, params, f, done);
      done := done + [f];
    }
    if !PhpEmptyOpt(endDate) {
      var f := Filter("clicked_at", "<=", StrParam(endDate.value));
      where, params := AppendFilter(where, params, f, done);
      done := done + [f];
    }
    assert done == ClickFilters(qrCodeId, startDate, endDate);
  }

  /** The date-only $where/$params of get_total_stats ("clicked_at") and get_top_qr_codes ("c.clicked_at"). */
  method BuildDateFilters(column: string, startDate: Option<string>, endDate: Option<string>)
    returns (where: seq<string>, params: seq<Param>)
    ensures Lockstep(where, params, DateFilters(column, startDate, endDate))
  {
    where, params := [], [];
    ghost var done: seq<Filter> := [];
    if !PhpEmptyOpt(startDate) {
      var f := Filter(column, ">=", StrParam(startDate.value));
      where, params := AppendFilter(where, params, f, done);
      done := done + [f];
    }
    if !PhpEmptyOpt(endDate) {
      var f := Filter(column, "<=", StrParam(endDate.value));
      where, params := AppendFilter(where, params, f, done);
      done := done + [f];
    }
    assert done == DateFilters(column, startDate, endDate);
  }

  /** The filters present are exactly the truthy arguments, in the order id, start, end. */
  lemma ClickFiltersSelection(qrCodeId: Option<int>, startDate: Option<string>, endDate: Option<string>)
    ensures var fs := ClickFilters(qrCodeId, startDate, endDate);
      |fs| == (if TruthyId(qrCodeId) then 1 else 0) + (if !PhpEmptyOpt(startDate) then 1 else 0) + (if !PhpEmptyOpt(endDate) then 1 else 0)
      && (TruthyId(qrCodeId) <==> exists f :: f in fs && f.column == "qr_code_id")
      && (TruthyId(qrCodeId) ==> fs[0] == Filter("qr_code_id", "=", IntParam(qrCodeId.value)))
      && (!PhpEmptyOpt(startDate) <==> exists f :: f in fs && f.op == ">=")
      && (!PhpEmptyOpt(endDate) ==> fs[|fs| - 1] == Filter("clicked_at", "<=", StrParam(endDate.value)))
      && (PhpEmptyOpt(endDate) ==> forall f :: f in fs ==> f.op != "<=")
  {
  }

  /** `!empty($where) ? $prefix . implode(' AND ', $where) : ''` */
  function Conjunction(prefix: string, where: seq<string>): string {
    if where == [] then "" else prefix + Join(where, " AND ")
  }

  /** The WHERE clause of the click queries. */
  function WhereClause(where: seq<string>): string {
    Conjunction("WHERE ", where)
  }

  function CountAll(parts: seq<string>, c: char): nat {
    if parts == [] then 0 else CountAll(parts[..|parts| - 1], c) + CountChar(parts[|parts| - 1], c)
  }

  lemma {:induction false} CountCharAbsent(s: string, c: char)
    requires c !in s
    ensures CountChar(s, c) == 0
  {
    if s != [] {
      CountCharAbsent(s[..|s| - 1], c);
    }
  }

  lemma {:induction false} JoinCount(parts: seq<string>, sep: string, c: char)
    requires c !in sep
    ensures CountChar(Join(parts, sep), c) == CountAll(parts, c)
    decreases |parts|
  {
    if |parts| == 1 {
      assert parts[..0] == [];
    } else if |parts| > 1 {
      var init := parts[..|parts| - 1];
      JoinCount(init, sep, c);
      CountCharAppend(Join(init, sep) + sep, parts[|parts| - 1], c);
      CountCharAppend(Join(init, sep), sep, c);
      CountCharAbsent(sep, c);
    }
  }

  /** A condition holds exactly one placeholder when its column and operator hold none. */
  lemma ConditionPlaceholders(f: Filter)
    requires '%' !in f.column && '%' !in f.op
    ensures CountChar(ConditionText(f), '%') == 1
  {
    CountCharAppend(f.column + " " + f.op + " ", Placeholder(f.value), '%');
    CountCharAppend(f.column + " " + f.op, " ", '%');
    CountCharAppend(f.column + " ", f.op, '%');
    CountCharAppend(f.column, " ", '%');
    CountCharAbsent(f.column, '%');
    CountCharAbsent(f.op, '%');
    CountCharAbsent(" ", '%');
    var p := Placeholder(f.value);
    assert p[..1] == "%";
    assert CountChar(p, '%') == CountChar(p[..1], '%') + 0;
  }

  lemma {:induction false} CountAllConditions(where: seq<string>, params: seq<Param>, filters: seq<Filter>)
    requires Lockstep(where, params, filters)
    requires forall f :: f in filters ==> '%' !in f.column && '%' !in f.op
    ensures CountAll(where, '%') == |params|
    decreases |filters|
  {
    if filters != [] {
      var n := |filters| - 1;
      CountAllConditions(where[..n], params[..n], filters[..n]);
      ConditionPlaceholders(filters[n]);
    }
  }

  /** Placeholders and parameters agree: the clause built from lock-step conditions
      holds exactly as many '%' placeholders as there are parameters. */
  lemma PlaceholderCount(prefix: string, where: seq<string>, params: seq<Param>, filters: seq<Filter>)
    requires Lockstep(where, params, filters)
    requires forall f :: f in filters ==> '%' !in f.column && '%' !in f.op
    requires '%' !in prefix
    ensures CountChar(Conjunction(prefix, where), '%') == |params|
  {
    CountAllConditions(where, params, filters);
    if where != [] {
      JoinCount(where, " AND ", '%');
      CountCharAppend(prefix, Join(where, " AND "), '%');
      CountCharAbsent(prefix, '%');
    }
  }

  /** The builders' own filters never put a '%' in a column or operator. */
  lemma ClickFiltersPlain(qrCodeId: Option<int>, startDate: Option<string>, endDate: Option<string>)
    ensures forall f :: f in ClickFilters(qrCodeId, startDate, endDate) ==> '%' !in f.column && '%' !in f.op
  {
  }

  lemma DateFiltersPlain(column: string, startDate: Option<string>, endDate: Option<string>)
    requires '%' !in column
    ensures forall f :: f in DateFilters(column, startDate, endDate) ==> '%' !in f.column && '%' !in f.op
  {
  }

  /** How a query reaches $wpdb: through prepare() with its parameters, or as plain SQL. */
  datatype QueryCall = Prepared(sql: string, args: seq<Param>) | Plain(sql: string)

  /** prepare() is used only when there are parameters. */
  function Dispatch(sql: string, params: seq<Param>): (q: QueryCall)
    ensures q.sql == sql
    ensures q.Prepared? <==> params != []
    ensures q.Prepared? ==> q.args == params
  {
    if params != [] then Prepared(sql, params) else Plain(sql)
  }

  datatype Breakdown = ByDate | ByDevice | ByCountry

  /** The grouped click query of each breakdown, around the WHERE clause. The source spreads the
      statement over several lines; here its white space is normalised to single spaces. */
  function BreakdownSql(b: Breakdown, table: string, whereClause: string): string {
    match b
    case ByDate => "SELECT DATE(clicked_at) as date, COUNT(*) as clicks FROM " + table + " " + whereClause
                   + " GROUP BY DATE(clicked_at) ORDER BY date ASC"
    case ByDevice => "SELECT device_type, COUNT(*) as clicks FROM " + table + " " + whereClause
                     + " GROUP BY device_type ORDER BY clicks DESC"
    case ByCountry => "SELECT country, COUNT(*) as clicks FROM " + table + " " + whereClause
                      + " GROUP BY country ORDER BY clicks DESC"
  }

  /** The condition strings of a filter list. */
  function Conditions(fs: seq<Filter>): (r: seq<string>)
    ensures |r| == |fs|
  {
    seq(|fs|, i requires 0 <= i < |fs| => ConditionText(fs[i]))
  }

  /** The parameter values of a filter list. */
  function Values(fs: seq<Filter>): (r: seq<Param>)
    ensures |r| == |fs|
  {
    seq(|fs|, i requires 0 <= i < |fs| => fs[i].value)
  }

  lemma LockstepIs(where: seq<string>, params: seq<Param>, fs: seq<Filter>)
    requires Lockstep(where, params, fs)
    ensures where == Conditions(fs) && params == Values(fs)
  {
  }

  /** get_clicks_by_date / get_clicks_by_device / get_clicks_by_country */
  method ClicksBy(b: Breakdown, table: string, qrCodeId: Option<int>, startDate: Option<string>, endDate: Option<string>)
    returns (call: QueryCall)
    ensures var fs := ClickFilters(qrCodeId, startDate, endDate);
      call.sql == BreakdownSql(b, table, WhereClause(Conditions(fs)))
      && (call.Prepared? <==> fs != [])
      && (call.Prepared? ==> call.args == Values(fs))
  {
    var where, params := BuildClickFilters(qrCodeId, startDate, endDate);
    LockstepIs(where, params, ClickFilters(qrCodeId, startDate, endDate));
    call := Dispatch(BreakdownSql(b, table, WhereClause(where)), params);
  }

  /** The WHERE clause of the click queries has one placeholder per parameter. */
  lemma ClicksByPlaceholders(qrCodeId: Option<int>, startDate: Option<string>, endDate: Option<string>)
    ensures var fs := ClickFilters(qrCodeId, startDate, endDate);
      CountChar(WhereClause(Conditions(fs)), '%') == |Values(fs)|
  {
    var fs := ClickFilters(qrCodeId, startDate, endDate);
    ClickFiltersPlain(qrCodeId, startDate, endDate);
    PlaceholderCount("WHERE ", Conditions(fs), Values(fs), fs);
  }

  /** The clicks count of get_total_stats: plain COUNT(*) without dates, prepared with a WHERE clause otherwise. */
  method TotalClicksCall(table: string, startDate: Option<string>, endDate: Option<string>) returns (call: QueryCall)
    ensures var fs := DateFilters("clicked_at", startDate, endDate);
      (fs == [] ==> call == Plain("SELECT COUNT(*) FROM " + table))
      && (fs != [] ==> call == Prepared("SELECT COUNT(*) FROM " + table + " " + WhereClause(Conditions(fs)), Values(fs)))
  {
    var where, params := BuildDateFilters("clicked_at", startDate, endDate);
    LockstepIs(where, params, DateFilters("clicked_at", startDate, endDate));
    if params != [] {
      call := Prepared("SELECT COUNT(*) FROM " + table + " " + WhereClause(where), params);
    } else {
      call := Plain("SELECT COUNT(*) FROM " + table);
    }
  }

  /** The join condition suffix and parameters of get_top_qr_codes: date conditions
      prefixed "AND ", and the limit always last. */
  method TopCodesArgs(limit: int, startDate: Option<string>, endDate: Option<string>) returns (joinExtra: string, params: seq<Param>)
    ensures var fs := DateFilters("c.clicked_at", startDate, endDate);
      joinExtra == Conjunction("AND ", Conditions(fs)) && params == Values(fs) + [IntParam(limit)]
  {
    var where;
    where, params := BuildDateFilters("c.clicked_at", startDate, endDate);
    LockstepIs(where, params, DateFilters("c.clicked_at", startDate, endDate));
    joinExtra := Conjunction("AND ", where);
    params := params + [IntParam(limit)];
  }

  /** In get_top_qr_codes the limit is the last parameter, and the date conditions
      account for every placeholder before it (LIMIT %d takes the last). */
  lemma TopCodesPlaceholders(limit: int, startDate: Option<string>, endDate: Option<string>)
    ensures var fs := DateFilters("c.clicked_at", startDate, endDate);
      var ps := Values(fs) + [IntParam(limit)];
      ps[|ps| - 1] == IntParam(limit) && CountChar(Conjunction("AND ", Conditions(fs)), '%') == |ps| - 1
      && (Conjunction("AND ", Conditions(fs)) == "" <==> PhpEmptyOpt(startDate) && PhpEmptyOpt(endDate))
  {
    var fs := DateFilters("c.clicked_at", startDate, endDate);
    DateFiltersPlain("c.clicked_at", startDate, endDate);
    PlaceholderCount("AND ", Conditions(fs), Values(fs), fs);
  }
}
