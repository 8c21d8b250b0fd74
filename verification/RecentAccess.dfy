/**
 The cookie of recently visited pages: reading untrusted entries, writing as many as fit, and adding
 a visit.  Characters are the platform's code units; JSON and URI coding are the platform's own.
 */
module RecentAccess {
  import opened Common
  import opened Text
  import Sorting

  const LIMIT := 20
  const COOKIE_MAX_BYTES := 3800

  datatype Area = Dashboard | Admin

  datatype Entry = Entry(
    userId: string, id: string, kind: string, area: Area, orgSlug: Option<string>,
    title: string, href: string, accessedAt: int, subtitle: Option<string>)

  // ---- JSON ----

  datatype Field = UserId | Id | Kind | InArea | OrgSlug | Title | Href | AccessedAt | Subtitle

  /** Every field has a long name and, in the cookie, a short one. */
  datatype Name = Long(field: Field) | Short(field: Field) | Other(name: string)

  /** A value of the language; an object is its property access, missing properties being undefined. */
  datatype Json =
    | Undefined | Null | Bool(b: bool) | Num(n: int) | Str(s: string) | Arr(items: seq<Json>) | Obj(get: Name -> Json)

  /**
   encode is encodeURIComponent after JSON.stringify, decode the reverse with None for an
   exception, toNumber is Number with None for what is not finite.
   */
  datatype Platform = Platform(encode: Json -> string, decode: string -> Option<Json>, toNumber: Json -> Option<int>)

  // ---- Reading one entry ----

  /** record.long ?? record.short */
  function Read(get: Name -> Json, f: Field): Json {
    if get(Long(f)).Undefined? || get(Long(f)).Null? then get(Short(f)) else get(Long(f))
  }

  function Cut(s: string, max: nat): string { if |s| <= max then s else s[..max] }

  function CleanString(v: Json, max: nat): string { if v.Str? then Cut(Trim(v.s, Js), max) else "" }

  function NonEmpty(s: string): Option<string> { if s == "" then None else Some(s) }

  const KINDS := [
    "organization", "dashboard-organizations", "dashboard-profile", "organization-courses", "organization-members",
    "course", "lesson", "admin-users", "admin-user", "admin-organizations", "admin-organization",
    "admin-organization-members", "admin-organization-courses", "admin-course", "admin-module"]

  predicate AmongFirst(s: string, names: seq<string>, n: nat)
    requires n <= |names|
  {
    n > 0 && (s == names[n - 1] || AmongFirst(s, names, n - 1))
  }

  predicate IsKind(s: string) { AmongFirst(s, KINDS, |KINDS|) }

  function CleanArea(v: Json, kind: string): Area {
    if v.Str? && v.s == "admin" then Admin
    else if v.Str? && v.s == "dashboard" then Dashboard
    else if "admin-" <= kind then Admin
    else Dashboard
  }

  function AreaName(a: Area): string { if a.Admin? then "admin" else "dashboard" }

  /** Links stay on the site, in the area they are listed under, and in their organisation. */
  predicate HrefAllowed(href: string, area: Area, orgSlug: Option<string>) {
    && "/" <= href && !("//" <= href)
    && if area.Admin? then "/admin" <= href
       else "/dashboard" <= href && (orgSlug.Some? ==> "/dashboard/organizations/" + orgSlug.value <= href)
  }

  /** What reading makes of the fields. */
  function Cleaned(p: Platform, get: Name -> Json, kind: string): Entry {
    Entry(
      CleanString(Read(get, UserId), 160), CleanString(Read(get, Id), 160), kind,
      CleanArea(Read(get, InArea), kind), NonEmpty(CleanString(Read(get, OrgSlug), 120)),
      CleanString(Read(get, Title), 160), CleanString(Read(get, Href), 320),
      ReadTime(p, Read(get, AccessedAt)), NonEmpty(CleanString(Read(get, Subtitle), 220)))
  }

  predicate Complete(e: Entry) {
    e.userId != "" && e.id != "" && e.title != "" && HrefAllowed(e.href, e.area, e.orgSlug)
  }

  function Normalize(p: Platform, j: Json): Option<Entry> {
    if !j.Obj? || !Read(j.get, Kind).Str? || !IsKind(Read(j.get, Kind).s) then None
    else
      var e := Cleaned(p, j.get, Read(j.get, Kind).s);
      if Complete(e) then Some(e) else None
  }

  function ReadTime(p: Platform, v: Json): int {
    if v.Num? then v.n else if p.toNumber(v).Some? then p.toNumber(v).value else 0
  }

  /** A link on the site itself, into its own area and organisation. */
  predicate LinksHome(e: Entry) {
    && |e.href| > 0 && e.href[0] == '/' && (|e.href| > 1 ==> e.href[1] != '/')
    && (e.area == Admin ==> "/admin" <= e.href)
    && (e.area == Dashboard ==> "/dashboard" <= e.href)
    && (e.area == Dashboard && e.orgSlug.Some? ==> "/dashboard/organizations/" + e.orgSlug.value <= e.href)
  }

  lemma AllowedIffHome(e: Entry)
    ensures HrefAllowed(e.href, e.area, e.orgSlug) <==> LinksHome(e)
  {
    assert "/"[0] == '/' && "//"[0] == '/' && "//"[1] == '/';
  }

  /** An entry without a known area is listed under that of its kind. */
  lemma AreaIs(p: Platform, j: Json)
    requires Normalize(p, j).Some?
    ensures var e, v := Normalize(p, j).value, Read(j.get, InArea);
            && (v == Str("admin") ==> e.area == Admin) && (v == Str("dashboard") ==> e.area == Dashboard)
            && (v != Str("admin") && v != Str("dashboard") ==> (e.area == Admin <==> "admin-" <= e.kind))
  {
  }

  /** Whatever is read is complete and points where it may. */
  lemma NormalizedIsSafe(p: Platform, j: Json)
    requires Normalize(p, j).Some?
    ensures var e := Normalize(p, j).value;
            && e.userId != "" && e.id != "" && e.title != "" && IsKind(e.kind) && LinksHome(e)
            && |e.userId| <= 160 && |e.id| <= 160 && |e.title| <= 160 && |e.href| <= 320
            && (e.orgSlug.Some? ==> 0 < |e.orgSlug.value| <= 120)
            && (e.subtitle.Some? ==> 0 < |e.subtitle.value| <= 220)
  {
    AllowedIffHome(Normalize(p, j).value);
  }

  lemma CleanOf(s: string, max: nat)
    requires max > 0
    ensures var t := Cut(Trim(s, Js), max);
            (t == [] || !IsSpace(t[0], Js))
            && (t != [] && IsSpace(t[|t| - 1], Js) <==> |Trim(s, Js)| > max && IsSpace(Trim(s, Js)[max - 1], Js))
  {
    TrimCleans(s, Js);
  }

  lemma TrimmedIff(t: string)
    ensures Trim(t, Js) == t <==> Trimmed(t, Js)
  {
    TrimCleans(t, Js);
  }

  lemma CleaningShortText(t: string, max: nat)
    requires |t| <= max
    ensures CleanString(Str(t), max) == Trim(t, Js)
  {
    TrimLeftKeeps(t, Js);
    TrimRightKeeps(TrimLeft(t, Js), Js);
  }

  /** The string is longer than its limit, and the last character kept is white space. */
  predicate CutBehindSpace(v: Json, max: nat)
    requires max > 0
  {
    v.Str? && |Trim(v.s, Js)| > max && IsSpace(Trim(v.s, Js)[max - 1], Js)
  }

  /** Trimming comes before cutting, so cleaning again changes a string exactly when the cut fell behind white space. */
  lemma CleaningIsDoneIff(s: string, max: nat)
    requires max > 0
    ensures var once := CleanString(Str(s), max);
            CleanString(Str(once), max) == once <==> !CutBehindSpace(Str(s), max)
  {
    var once := Cut(Trim(s, Js), max);
    CleanOf(s, max);
    CleaningShortText(once, max);
    TrimmedIff(once);
  }

  // ---- Two ways to write an entry ----

  function TextOf(s: Option<string>): Json { if s.None? then Undefined else Str(s.value) }

  function ValueOf(e: Entry, f: Field): Json {
    match f
    case UserId => Str(e.userId)
    case Id => Str(e.id)
    case Kind => Str(e.kind)
    case InArea => Str(AreaName(e.area))
    case OrgSlug => TextOf(e.orgSlug)
    case Title => Str(e.title)
    case Href => Str(e.href)
    case AccessedAt => Num(e.accessedAt)
    case Subtitle => TextOf(e.subtitle)
  }

  /** The entry object itself. */
  function LongForm(e: Entry): Json {
    Obj((n: Name) => if n.Long? then ValueOf(e, n.field) else Undefined)
  }

  predicate LeftOut(f: Field, v: Json) { (f.OrgSlug? || f.Subtitle?) && v.Str? && v.s == "" }

  /** What the cookie holds: short names, and no empty optional fields. */
  function CompactForm(e: Entry): Json {
    Obj((n: Name) => if n.Short? && !LeftOut(n.field, ValueOf(e, n.field)) then ValueOf(e, n.field) else Undefined)
  }

  lemma ReadsLong(e: Entry, f: Field)
    ensures Read(LongForm(e).get, f) == ValueOf(e, f)
  {
  }

  lemma ReadsCompact(e: Entry, f: Field)
    ensures Read(CompactForm(e).get, f) == if LeftOut(f, ValueOf(e, f)) then Undefined else ValueOf(e, f)
  {
  }

  /** Reading depends on the fields only, and cannot tell an empty optional field from a missing one. */
  lemma SameFieldsReadSame(p: Platform, a: Name -> Json, b: Name -> Json)
    requires forall f: Field :: !f.OrgSlug? && !f.Subtitle? ==> Read(a, f) == Read(b, f)
    requires CleanString(Read(a, OrgSlug), 120) == CleanString(Read(b, OrgSlug), 120)
    requires CleanString(Read(a, Subtitle), 220) == CleanString(Read(b, Subtitle), 220)
    ensures Normalize(p, Obj(a)) == Normalize(p, Obj(b))
  {
  }

  /** The short form reads as the entry itself. */
  lemma CompactReadsAsLong(p: Platform, e: Entry)
    ensures Normalize(p, CompactForm(e)) == Normalize(p, LongForm(e))
  {
    var l, c := LongForm(e).get, CompactForm(e).get;
    forall f: Field ensures !f.OrgSlug? && !f.Subtitle? ==> Read(c, f) == Read(l, f) {
      ReadsLong(e, f);
      ReadsCompact(e, f);
    }
    ReadsLong(e, OrgSlug);
    ReadsCompact(e, OrgSlug);
    ReadsLong(e, Subtitle);
    ReadsCompact(e, Subtitle);
    SameFieldsReadSame(p, c, l);
  }

  /** One entry under the long names and another under the short ones. */
  function BothForms(long: Entry, short: Entry): Json {
    Obj((n: Name) =>
          if n.Long? then ValueOf(long, n.field) else if n.Short? then ValueOf(short, n.field) else Undefined)
  }

  /** Where a field has both names the long one counts. */
  lemma LongNamesCount(p: Platform, long: Entry, short: Entry)
    requires long.orgSlug.Some? && long.subtitle.Some?
    ensures Normalize(p, BothForms(long, short)) == Normalize(p, LongForm(long))
  {
    var l, c := LongForm(long).get, BothForms(long, short).get;
    forall f: Field ensures Read(c, f) == Read(l, f) { ReadsLong(long, f); }
    SameFieldsReadSame(p, c, l);
  }

  /** Entries that reading leaves as they are. */
  ghost predicate Fixed(p: Platform, e: Entry) {
    match Normalize(p, LongForm(e))
    case Some(again) => again == e
    case None => false
  }

  predicate IsText(f: Field) { f.UserId? || f.Id? || f.OrgSlug? || f.Title? || f.Href? || f.Subtitle? }

  function MaxOf(f: Field): nat {
    match f
    case OrgSlug => 120
    case Href => 320
    case Subtitle => 220
    case _ => 160
  }

  lemma CleanAgainIff(v: Json, max: nat)
    requires max > 0
    ensures var once := CleanString(v, max); CleanString(Str(once), max) == once <==> !CutBehindSpace(v, max)
  {
    if v.Str? { CleaningIsDoneIff(v.s, max); } else { CleaningShortText("", max); }
  }

  /** An optional text is read back exactly when its cleaned string is. */
  lemma OptionalAgainIff(v: Json, max: nat)
    requires max > 0
    ensures var t := NonEmpty(CleanString(v, max));
            NonEmpty(CleanString(TextOf(t), max)) == t <==> !CutBehindSpace(v, max)
  {
    CleanAgainIff(v, max);
    if v.Str? {
      CleanOf(v.s, max);
      if CleanString(v, max) == "" { assert !CutBehindSpace(v, max); }
    }
  }

  /** The fields as they are read from an entry that is written out again. */
  predicate ReadsAgain(e: Entry, f: Field) {
    match f
    case UserId => CleanString(Str(e.userId), 160) == e.userId
    case Id => CleanString(Str(e.id), 160) == e.id
    case OrgSlug => NonEmpty(CleanString(TextOf(e.orgSlug), 120)) == e.orgSlug
    case Title => CleanString(Str(e.title), 160) == e.title
    case Href => CleanString(Str(e.href), 320) == e.href
    case Subtitle => NonEmpty(CleanString(TextOf(e.subtitle), 220)) == e.subtitle
    case _ => true
  }

  lemma ReadsAgainIff(p: Platform, j: Json, f: Field)
    requires Normalize(p, j).Some? && IsText(f)
    ensures ReadsAgain(Normalize(p, j).value, f) <==> !CutBehindSpace(Read(j.get, f), MaxOf(f))
  {
    var v := Read(j.get, f);
    if f.OrgSlug? || f.Subtitle? { OptionalAgainIff(v, MaxOf(f)); } else { CleanAgainIff(v, MaxOf(f)); }
  }

  ghost predicate TextsReadAgain(e: Entry) { forall f: Field :: IsText(f) ==> ReadsAgain(e, f) }

  ghost predicate HasFields(get: Name -> Json, e: Entry) {
    match e
    case Entry(userId, id, kind, area, orgSlug, title, href, accessedAt, subtitle) =>
      && Read(get, UserId) == Str(userId) && Read(get, Id) == Str(id) && Read(get, Kind) == Str(kind)
      && Read(get, InArea) == Str(AreaName(area)) && Read(get, OrgSlug) == TextOf(orgSlug)
      && Read(get, Title) == Str(title) && Read(get, Href) == Str(href)
      && Read(get, AccessedAt) == Num(accessedAt) && Read(get, Subtitle) == TextOf(subtitle)
  }

  lemma LongFormHasFields(e: Entry)
    ensures HasFields(LongForm(e).get, e)
  {
  }

  /** Reading the fields of an entry gives it back exactly when its texts read as they are. */
  lemma CleanedAgainIff(p: Platform, get: Name -> Json, e: Entry)
    requires HasFields(get, e)
    ensures Cleaned(p, get, e.kind) == e <==> TextsReadAgain(e)
  {
    if TextsReadAgain(e) {
      assert ReadsAgain(e, UserId) && ReadsAgain(e, Id) && ReadsAgain(e, OrgSlug);
      assert ReadsAgain(e, Title) && ReadsAgain(e, Href) && ReadsAgain(e, Subtitle);
    }
  }

  lemma FixedIffCleaned(p: Platform, e: Entry)
    requires Complete(e) && IsKind(e.kind)
    ensures Fixed(p, e) <==> Cleaned(p, LongForm(e).get, e.kind) == e
  {
    ReadsLong(e, Kind);
  }

  /** A complete entry is fixed exactly when every text of it is. */
  lemma FixedIffTextsAre(p: Platform, e: Entry)
    requires Complete(e) && IsKind(e.kind)
    ensures Fixed(p, e) <==> TextsReadAgain(e)
  {
    FixedIffCleaned(p, e);
    LongFormHasFields(e);
    CleanedAgainIff(p, LongForm(e).get, e);
  }

  /** Reading an entry again changes it exactly when one of its texts was cut behind white space. */
  lemma NormalizedIsFixedIff(p: Platform, j: Json)
    requires Normalize(p, j).Some?
    ensures Fixed(p, Normalize(p, j).value)
            <==> forall f: Field :: IsText(f) ==> !CutBehindSpace(Read(j.get, f), MaxOf(f))
  {
    FixedIffTextsAre(p, Normalize(p, j).value);
    forall f: Field | IsText(f)
      ensures ReadsAgain(Normalize(p, j).value, f) <==> !CutBehindSpace(Read(j.get, f), MaxOf(f))
    {
      ReadsAgainIff(p, j, f);
    }
  }

  // ---- Lists ----

  predicate NewerFirst(a: Entry, b: Entry) { a.accessedAt > b.accessedAt }

  lemma NewerFirstIsOrder()
    ensures Sorting.IsOrder(NewerFirst)
  {
  }

  function Reader(p: Platform): Json -> Option<Entry> { j => Normalize(p, j) }

  function Accept(es: seq<Entry>, read: Option<Entry>): seq<Entry> { if read.None? then es else es + [read.value] }

  /** The values read one by one, the unreadable ones dropped. */
  function ReadAll(reader: Json -> Option<Entry>, js: seq<Json>): seq<Entry> {
    if |js| == 0 then [] else Accept(ReadAll(reader, js[..|js| - 1]), reader(js[|js| - 1]))
  }

  lemma ReadOneMore(reader: Json -> Option<Entry>, js: seq<Json>, j: Json)
    ensures ReadAll(reader, js + [j]) == Accept(ReadAll(reader, js), reader(j))
  {
  }

  /** The first n entries written in one form. */
  function Written(form: Entry -> Json, es: seq<Entry>, n: nat): seq<Json>
    requires n <= |es|
  {
    if n == 0 then [] else Written(form, es, n - 1) + [form(es[n - 1])]
  }

  /** What the first n entries are read as after they were written in one form. */
  function AsRead(reader: Json -> Option<Entry>, form: Entry -> Json, es: seq<Entry>, n: nat): seq<Entry>
    requires n <= |es|
  {
    ReadAll(reader, Written(form, es, n))
  }

  lemma AsReadOneMore(reader: Json -> Option<Entry>, form: Entry -> Json, es: seq<Entry>, n: nat)
    requires n < |es|
    ensures AsRead(reader, form, es, n + 1) == Accept(AsRead(reader, form, es, n), reader(form(es[n])))
  {
    ReadOneMore(reader, Written(form, es, n), form(es[n]));
  }

  lemma {:induction false} AsReadGrows(
    reader: Json -> Option<Entry>, form: Entry -> Json, es: seq<Entry>, m: nat, n: nat)
    requires m <= n <= |es|
    ensures AsRead(reader, form, es, m) <= AsRead(reader, form, es, n)
    ensures |AsRead(reader, form, es, n)| <= |AsRead(reader, form, es, m)| + (n - m)
  {
    if m < n {
      AsReadGrows(reader, form, es, m, n - 1);
      AsReadOneMore(reader, form, es, n - 1);
    }
  }

  /** A readable entry stands behind the readable ones before it. */
  lemma ItemIsRead(reader: Json -> Option<Entry>, form: Entry -> Json, es: seq<Entry>, i: nat)
    requires i < |es| && reader(form(es[i])).Some?
    ensures var all, q := AsRead(reader, form, es, |es|), |AsRead(reader, form, es, i)|;
            q < |all| && all[q] == reader(form(es[i])).value
  {
    AsReadOneMore(reader, form, es, i);
    AsReadGrows(reader, form, es, i + 1, |es|);
  }

  lemma {:induction false} ReadItemIsFrom(
    reader: Json -> Option<Entry>, form: Entry -> Json, es: seq<Entry>, n: nat, q: nat) returns (i: nat)
    requires n <= |es| && q < |AsRead(reader, form, es, n)|
    ensures i < n && reader(form(es[i])) == Some(AsRead(reader, form, es, n)[q]) && |AsRead(reader, form, es, i)| == q
  {
    AsReadOneMore(reader, form, es, n - 1);
    if q < |AsRead(reader, form, es, n - 1)| {
      i := ReadItemIsFrom(reader, form, es, n - 1, q);
    } else {
      i := n - 1;
    }
  }

  ghost predicate ReadsBack(reader: Json -> Option<Entry>, form: Entry -> Json, e: Entry) { reader(form(e)) == Some(e) }

  lemma OneMoreReadsBack(reader: Json -> Option<Entry>, form: Entry -> Json, es: seq<Entry>, n: nat)
    requires n < |es| && ReadsBack(reader, form, es[n]) && ReadAll(reader, Written(form, es, n)) == es[..n]
    ensures ReadAll(reader, Written(form, es, n + 1)) == es[..n + 1]
  {
    var js, e := Written(form, es, n), es[n];
    ReadOneMore(reader, js, form(e));
    assert Written(form, es, n + 1) == js + [form(e)];
    assert es[..n + 1] == es[..n] + [e];
  }

  lemma {:induction false} WrittenReadsBack(reader: Json -> Option<Entry>, form: Entry -> Json, es: seq<Entry>, n: nat)
    requires n <= |es| && forall i :: 0 <= i < n ==> ReadsBack(reader, form, es[i])
    ensures ReadAll(reader, Written(form, es, n)) == es[..n]
  {
    if n > 0 {
      WrittenReadsBack(reader, form, es, n - 1);
      OneMoreReadsBack(reader, form, es, n - 1);
    }
  }

  /** Writing a list with another entry in front writes that entry first. */
  lemma {:induction false} WrittenButFirst(form: Entry -> Json, first: Entry, rest: seq<Entry>, n: nat)
    requires n <= |rest|
    ensures Written(form, [first] + rest, n + 1) == [form(first)] + Written(form, rest, n)
  {
    var all := [first] + rest;
    if n == 0 {
      assert Written(form, all, 0) == [];
    } else {
      WrittenButFirst(form, first, rest, n - 1);
      assert all[n] == rest[n - 1];
      assert [form(first)] + (Written(form, rest, n - 1) + [form(rest[n - 1])])
          == [form(first)] + Written(form, rest, n - 1) + [form(rest[n - 1])];
    }
  }

  lemma {:induction false} ReadButFirst(reader: Json -> Option<Entry>, j: Json, js: seq<Json>)
    ensures ReadAll(reader, [j] + js) == Accept([], reader(j)) + ReadAll(reader, js)
  {
    if js == [] {
      assert [j] + js == [] + [j];
      ReadOneMore(reader, [], j);
    } else {
      var before, last := js[..|js| - 1], js[|js| - 1];
      ReadButFirst(reader, j, before);
      ReadOneMore(reader, [j] + before, last);
      ReadOneMore(reader, before, last);
      assert [j] + js == [j] + before + [last] && js == before + [last];
    }
  }

  lemma AsReadButFirst(reader: Json -> Option<Entry>, form: Entry -> Json, first: Entry, rest: seq<Entry>)
    ensures AsRead(reader, form, [first] + rest, |rest| + 1)
            == Accept([], reader(form(first))) + AsRead(reader, form, rest, |rest|)
  {
    WrittenButFirst(form, first, rest, |rest|);
    ReadButFirst(reader, form(first), Written(form, rest, |rest|));
  }

  function TopOf(es: seq<Entry>): seq<Entry> {
    var sorted := Sorting.Sort(es, NewerFirst);
    if |sorted| <= LIMIT then sorted else sorted[..LIMIT]
  }

  function Parse(p: Platform, value: string): seq<Entry> {
    if value == "" then []
    else
      match p.decode(value)
      case Some(Arr(items)) => TopOf(ReadAll(Reader(p), items))
      case _ => []
  }

  /** The first n entries in short form. */
  function Compacted(es: seq<Entry>, n: nat): seq<Json>
    requires n <= |es|
  {
    Written(CompactForm, es, n)
  }

  /** As many of the first 20 entries as fit, or none when not even one does. */
  predicate Largest(p: Platform, es: seq<Entry>, n: nat) {
    && n <= |es| && n <= 20
    && (n > 0 ==> |p.encode(Arr(Compacted(es, n)))| <= 3800)
    && forall m :: n < m <= |es| && m <= 20 ==> |p.encode(Arr(Compacted(es, m)))| > 3800
  }

  method Serialize(p: Platform, es: seq<Entry>) returns (value: string, n: nat)
    ensures Largest(p, es, n) && value == p.encode(Arr(Compacted(es, n)))
  {
    n := if |es| <= LIMIT then |es| else LIMIT;
    while n > 0
      invariant n <= |es| && n <= LIMIT
      invariant forall m :: n < m <= |es| && m <= LIMIT ==> |p.encode(Arr(Compacted(es, m)))| > COOKIE_MAX_BYTES
    {
      value := p.encode(Arr(Compacted(es, n)));
      if |value| <= COOKIE_MAX_BYTES { return; }
      n := n - 1;
    }
    value := p.encode(Arr([]));
  }

  /** Decoding undoes encoding for the arrays the cookie is made of, and fails on nothing at all. */
  ghost predicate Lawful(p: Platform) {
    && p.decode("") == None
    && forall es: seq<Entry>, n: nat :: n <= |es| ==>
         p.decode(p.encode(Arr(Compacted(es, n)))) == Some(Arr(Compacted(es, n)))
  }

  lemma FixedReads(p: Platform, e: Entry)
    requires Fixed(p, e)
    ensures Reader(p)(LongForm(e)) == Some(e) && Reader(p)(CompactForm(e)) == Some(e)
  {
    CompactReadsAsLong(p, e);
  }

  lemma FixedListReadsBack(p: Platform, es: seq<Entry>, n: nat)
    requires n <= |es| && forall e :: e in es ==> Fixed(p, e)
    ensures ReadAll(Reader(p), Compacted(es, n)) == es[..n]
  {
    forall i | 0 <= i < n ensures ReadsBack(Reader(p), CompactForm, es[i]) { FixedReads(p, es[i]); }
    WrittenReadsBack(Reader(p), CompactForm, es, n);
  }

  ghost predicate SameRead(reader: Json -> Option<Entry>, f: Entry -> Json, g: Entry -> Json, e: Entry) {
    reader(f(e)) == reader(g(e))
  }

  lemma {:induction false} FormsReadSame(
    reader: Json -> Option<Entry>, f: Entry -> Json, g: Entry -> Json, es: seq<Entry>, n: nat)
    requires n <= |es| && forall i :: 0 <= i < n ==> SameRead(reader, f, g, es[i])
    ensures AsRead(reader, f, es, n) == AsRead(reader, g, es, n)
  {
    if n > 0 {
      FormsReadSame(reader, f, g, es, n - 1);
      AsReadOneMore(reader, f, es, n - 1);
      AsReadOneMore(reader, g, es, n - 1);
      assert SameRead(reader, f, g, es[n - 1]);
    }
  }

  lemma CompactedReadsAsLong(p: Platform, es: seq<Entry>, n: nat)
    requires n <= |es|
    ensures AsRead(Reader(p), CompactForm, es, n) == AsRead(Reader(p), LongForm, es, n)
  {
    forall i | 0 <= i < n ensures SameRead(Reader(p), CompactForm, LongForm, es[i]) { CompactReadsAsLong(p, es[i]); }
    FormsReadSame(Reader(p), CompactForm, LongForm, es, n);
  }

  /** Parsing what was serialised gives, for every list, the entries written as they are read, newest first. */
  lemma ParseReadsAgain(p: Platform, es: seq<Entry>, n: nat)
    requires Lawful(p) && n <= |es|
    ensures Parse(p, p.encode(Arr(Compacted(es, n)))) == TopOf(AsRead(Reader(p), LongForm, es, n))
  {
    CompactedReadsAsLong(p, es, n);
  }

  /** Parsing what was serialised gives the entries written: the largest prefix that fits. */
  lemma ParseSerialized(p: Platform, es: seq<Entry>, n: nat)
    requires Lawful(p) && Largest(p, es, n)
    requires (forall e :: e in es ==> Fixed(p, e)) && Sorting.Sorted(es, NewerFirst)
    ensures Parse(p, p.encode(Arr(Compacted(es, n)))) == es[..n]
  {
    FixedListReadsBack(p, es, n);
    ParseOfEncoded(p, Compacted(es, n), es[..n]);
  }

  lemma ParseOfEncoded(p: Platform, js: seq<Json>, es: seq<Entry>)
    requires p.decode("") == None && p.decode(p.encode(Arr(js))) == Some(Arr(js)) && ReadAll(Reader(p), js) == es
    requires Sorting.Sorted(es, NewerFirst) && |es| <= LIMIT
    ensures Parse(p, p.encode(Arr(js))) == es
  {
    Sorting.SortedStays(es, NewerFirst);
  }

  /** Whatever the cookie holds, the list read is newest first, at most 20 long and safe to link to. */
  lemma ParsedIsSafe(p: Platform, value: string)
    ensures var es := Parse(p, value);
            && |es| <= 20 && Sorting.Sorted(es, NewerFirst)
            && forall e :: e in es ==> LinksHome(e)
  {
    match p.decode(value)
    case Some(Arr(items)) =>
      var read := ReadAll(Reader(p), items);
      TopIsSorted(read);
      forall e | e in TopOf(read) ensures LinksHome(e) {
        TopIsPart(read, e);
        ReadIsSafe(p, items, e);
      }
    case _ =>
  }

  lemma {:induction false} ReadIsSafe(p: Platform, js: seq<Json>, e: Entry)
    requires e in ReadAll(Reader(p), js)
    ensures LinksHome(e)
  {
    if |js| > 0 {
      var last := js[|js| - 1];
      if e in ReadAll(Reader(p), js[..|js| - 1]) {
        ReadIsSafe(p, js[..|js| - 1], e);
      } else {
        NormalizedIsSafe(p, last);
      }
    }
  }

  lemma TopIsSorted(es: seq<Entry>)
    ensures |TopOf(es)| <= 20 && Sorting.Sorted(TopOf(es), NewerFirst)
  {
    NewerFirstIsOrder();
    Sorting.SortSorts(es, NewerFirst);
  }

  lemma TopIsPart(es: seq<Entry>, e: Entry)
    requires e in TopOf(es)
    ensures e in es
  {
    Sorting.SortKeepsElements(es, NewerFirst);
    assert e in multiset(Sorting.Sort(es, NewerFirst));
    assert e in multiset(es);
  }

  // ---- A visit ----

  datatype Key = Key(area: Area, kind: string, id: string)

  function KeyOf(e: Entry): Key { Key(e.area, e.kind, e.id) }

  /** The key as the program writes it. */
  function KeyText(e: Entry): string { AreaName(e.area) + ":" + e.kind + ":" + e.id }

  lemma ShortKindsHaveNoColon()
    ensures forall i :: 0 <= i < 7 ==> ':' !in KINDS[i]
  {
  }

  lemma LongKindsHaveNoColon()
    ensures forall i :: 7 <= i < |KINDS| ==> ':' !in KINDS[i]
  {
  }

  lemma {:induction false} KindHasNoColon(s: string, n: nat)
    requires n <= |KINDS| && AmongFirst(s, KINDS, n)
    requires forall i :: 0 <= i < |KINDS| ==> ':' !in KINDS[i]
    ensures ':' !in s
  {
    if s != KINDS[n - 1] { KindHasNoColon(s, n - 1); }
  }

  lemma ColonSplits(a: string, b: string, a2: string, b2: string)
    requires ':' !in a && ':' !in a2
    ensures a + ":" + b == a2 + ":" + b2 <==> a == a2 && b == b2
  {
    var x, y := a + ":" + b, a2 + ":" + b2;
    if x == y {
      assert x[|a|] == ':' && y[|a2|] == ':';
      assert forall i :: 0 <= i < |a| ==> x[i] == a[i];
      assert forall i :: 0 <= i < |a2| ==> y[i] == a2[i];
      assert |a| == |a2|;
      assert a == x[..|a|] && a2 == y[..|a2|] && b == x[|a| + 1..] && b2 == y[|a2| + 1..];
    }
  }

  lemma AreaNamesDiffer(a: Area, b: Area)
    ensures AreaName(a) == AreaName(b) <==> a == b
    ensures ':' !in AreaName(a)
  {
    assert "admin"[0] != "dashboard"[0];
  }

  /** Two entries have one key exactly when area, kind and id agree. */
  lemma KeyTextsAgreeIff(a: Entry, b: Entry)
    requires IsKind(a.kind) && IsKind(b.kind)
    ensures KeyText(a) == KeyText(b) <==> KeyOf(a) == KeyOf(b)
    ensures KeyText(a) == KeyText(b) <==> a.area == b.area && a.kind == b.kind && a.id == b.id
  {
    ShortKindsHaveNoColon();
    LongKindsHaveNoColon();
    KindHasNoColon(a.kind, |KINDS|);
    KindHasNoColon(b.kind, |KINDS|);
    AreaNamesDiffer(a.area, b.area);
    AreaNamesDiffer(b.area, a.area);
    assert KeyText(a) == AreaName(a.area) + ":" + (a.kind + ":" + a.id);
    assert KeyText(b) == AreaName(b.area) + ":" + (b.kind + ":" + b.id);
    ColonSplits(AreaName(a.area), a.kind + ":" + a.id, AreaName(b.area), b.kind + ":" + b.id);
    ColonSplits(a.kind, a.id, b.kind, b.id);
  }

  /** The items under other keys. */
  function Without(es: seq<Entry>, key: Key, n: nat): seq<Entry>
    requires n <= |es|
  {
    if n == 0 then []
    else if KeyOf(es[n - 1]) == key then Without(es, key, n - 1)
    else Without(es, key, n - 1) + [es[n - 1]]
  }

  /** The visit before the others. */
  function Visited(es: seq<Entry>, entry: Entry, now: int): seq<Entry> {
    [entry.(accessedAt := now)] + Without(es, KeyOf(entry), |es|)
  }

  /** Everything read again, not yet sorted. */
  function Merged(p: Platform, es: seq<Entry>, entry: Entry, now: int): seq<Entry> {
    AsRead(Reader(p), LongForm, Visited(es, entry, now), |Visited(es, entry, now)|)
  }

  function Upsert(p: Platform, es: seq<Entry>, entry: Entry, now: int): seq<Entry> { TopOf(Merged(p, es, entry, now)) }

  predicate DistinctKeys(es: seq<Entry>) { forall i, j :: 0 <= i < j < |es| ==> KeyOf(es[i]) != KeyOf(es[j]) }

  lemma {:induction false} WithoutKeeps(es: seq<Entry>, key: Key, n: nat)
    requires n <= |es|
    ensures forall e :: e in Without(es, key, n) <==> e in es[..n] && KeyOf(e) != key
    ensures DistinctKeys(es) ==> DistinctKeys(Without(es, key, n))
  {
    if n > 0 {
      WithoutKeeps(es, key, n - 1);
      assert es[..n] == es[..n - 1] + [es[n - 1]];
      if DistinctKeys(es) {
        forall e | e in Without(es, key, n - 1) ensures KeyOf(e) != KeyOf(es[n - 1]) {
          var i :| 0 <= i < n - 1 && es[..n - 1][i] == e;
          assert es[i] == e;
        }
      }
    }
  }

  lemma OthersReadBack(p: Platform, es: seq<Entry>, key: Key)
    requires forall e :: e in es ==> Fixed(p, e)
    ensures var others := Without(es, key, |es|); AsRead(Reader(p), LongForm, others, |others|) == others
  {
    var others := Without(es, key, |es|);
    OthersAreFixed(p, es, key);
    forall i | 0 <= i < |others| ensures ReadsBack(Reader(p), LongForm, others[i]) { FixedReads(p, others[i]); }
    WrittenReadsBack(Reader(p), LongForm, others, |others|);
    assert others[..|others|] == others;
  }

  lemma VisitBeforeOthers(
    reader: Json -> Option<Entry>, form: Entry -> Json, es: seq<Entry>, entry: Entry, now: int)
    ensures var ws, others := Visited(es, entry, now), Without(es, KeyOf(entry), |es|);
            AsRead(reader, form, ws, |ws|)
            == Accept([], reader(form(entry.(accessedAt := now)))) + AsRead(reader, form, others, |others|)
  {
    AsReadButFirst(reader, form, entry.(accessedAt := now), Without(es, KeyOf(entry), |es|));
  }

  /** For a list of fixed entries, the merged list is the visit as it is read, then the others. */
  lemma MergedIs(p: Platform, es: seq<Entry>, entry: Entry, now: int, read: Option<Entry>)
    requires forall e :: e in es ==> Fixed(p, e)
    requires Reader(p)(LongForm(entry.(accessedAt := now))) == read
    ensures Merged(p, es, entry, now) == Accept([], read) + Without(es, KeyOf(entry), |es|)
  {
    OthersReadBack(p, es, KeyOf(entry));
    VisitBeforeOthers(Reader(p), LongForm, es, entry, now);
  }

  lemma OthersAreFixed(p: Platform, es: seq<Entry>, key: Key)
    requires forall e :: e in es ==> Fixed(p, e)
    ensures forall e :: e in Without(es, key, |es|) ==> Fixed(p, e)
  {
    WithoutKeeps(es, key, |es|);
    assert es[..|es|] == es;
  }

  // ---- Exactly when a page is listed twice ----

  /** Sorting newest first puts the item among the first 20. */
  predicate Within(es: seq<Entry>, k: nat)
    requires k < |es|
  {
    Sorting.Rank(es, k, NewerFirst) < 20
  }

  lemma WithinIsListed(es: seq<Entry>, k: nat)
    requires k < |es| && Within(es, k)
    ensures var q := Sorting.Rank(es, k, NewerFirst); q < |TopOf(es)| && TopOf(es)[q] == es[k]
  {
    NewerFirstIsOrder();
    Sorting.SortPlaces(es, NewerFirst, k);
  }

  lemma ListedIsWithin(es: seq<Entry>, q: nat) returns (k: nat)
    requires q < |TopOf(es)|
    ensures k < |es| && Sorting.Rank(es, k, NewerFirst) == q && TopOf(es)[q] == es[k] && Within(es, k)
  {
    NewerFirstIsOrder();
    k := Sorting.RankIsTaken(es, NewerFirst, q);
    Sorting.SortPlaces(es, NewerFirst, k);
  }

  /** Two items of one key, and both among the first 20. */
  predicate TwoWithin(es: seq<Entry>) {
    exists i, j :: 0 <= i < j < |es| && KeyOf(es[i]) == KeyOf(es[j]) && Within(es, i) && Within(es, j)
  }

  lemma TopIsDistinctIff(es: seq<Entry>)
    ensures DistinctKeys(TopOf(es)) <==> !TwoWithin(es)
  {
    if TwoWithin(es) {
      var i, j :| 0 <= i < j < |es| && KeyOf(es[i]) == KeyOf(es[j]) && Within(es, i) && Within(es, j);
      WithinIsListed(es, i);
      WithinIsListed(es, j);
      NewerFirstIsOrder();
      Sorting.RanksDiffer(es, NewerFirst, i, j);
    }
    if !DistinctKeys(TopOf(es)) {
      var a, b :| 0 <= a < b < |TopOf(es)| && KeyOf(TopOf(es)[a]) == KeyOf(TopOf(es)[b]);
      var i := ListedIsWithin(es, a);
      var j := ListedIsWithin(es, b);
      assert KeyOf(es[if i < j then i else j]) == KeyOf(es[if i < j then j else i]);
    }
  }

  /** The entry can be read, and is among the first 20 of all that can be. */
  predicate WithinAsRead(reader: Json -> Option<Entry>, form: Entry -> Json, es: seq<Entry>, i: nat)
    requires i < |es|
  {
    var all, place := AsRead(reader, form, es, |es|), |AsRead(reader, form, es, i)|;
    reader(form(es[i])).Some? && place < |all| && Within(all, place)
  }

  /** Two entries are read under one key, and both are among the first 20. */
  predicate TwoReadAsOne(reader: Json -> Option<Entry>, form: Entry -> Json, es: seq<Entry>) {
    exists i, j :: 0 <= i < j < |es| && WithinAsRead(reader, form, es, i) && WithinAsRead(reader, form, es, j)
                   && KeyOf(reader(form(es[i])).value) == KeyOf(reader(form(es[j])).value)
  }

  lemma ReadAsOneIsTwo(reader: Json -> Option<Entry>, form: Entry -> Json, es: seq<Entry>, i: nat, j: nat)
    requires i < j < |es| && WithinAsRead(reader, form, es, i) && WithinAsRead(reader, form, es, j)
    requires KeyOf(reader(form(es[i])).value) == KeyOf(reader(form(es[j])).value)
    ensures TwoWithin(AsRead(reader, form, es, |es|))
  {
    ItemIsRead(reader, form, es, i);
    ItemIsRead(reader, form, es, j);
    AsReadOneMore(reader, form, es, i);
    AsReadGrows(reader, form, es, i + 1, j);
  }

  lemma ListedIsWithinAsRead(reader: Json -> Option<Entry>, form: Entry -> Json, es: seq<Entry>, q: nat)
    returns (i: nat)
    requires q < |AsRead(reader, form, es, |es|)| && Within(AsRead(reader, form, es, |es|), q)
    ensures i < |es| && WithinAsRead(reader, form, es, i) && |AsRead(reader, form, es, i)| == q
    ensures reader(form(es[i])).value == AsRead(reader, form, es, |es|)[q]
  {
    i := ReadItemIsFrom(reader, form, es, |es|, q);
  }

  lemma PlacesInOrder(reader: Json -> Option<Entry>, form: Entry -> Json, es: seq<Entry>, i: nat, j: nat)
    requires i < |es| && j < |es| && |AsRead(reader, form, es, i)| < |AsRead(reader, form, es, j)|
    ensures i < j
  {
    if j <= i { AsReadGrows(reader, form, es, j, i); }
  }

  lemma TwoAreReadAsOne(reader: Json -> Option<Entry>, form: Entry -> Json, es: seq<Entry>, a: nat, b: nat)
    requires a < b < |AsRead(reader, form, es, |es|)|
    requires var all := AsRead(reader, form, es, |es|);
             KeyOf(all[a]) == KeyOf(all[b]) && Within(all, a) && Within(all, b)
    ensures TwoReadAsOne(reader, form, es)
  {
    var i := ListedIsWithinAsRead(reader, form, es, a);
    var j := ListedIsWithinAsRead(reader, form, es, b);
    PlacesInOrder(reader, form, es, i, j);
  }

  lemma TwoReadAsOneIff(reader: Json -> Option<Entry>, form: Entry -> Json, es: seq<Entry>)
    ensures TwoReadAsOne(reader, form, es) <==> TwoWithin(AsRead(reader, form, es, |es|))
  {
    var all := AsRead(reader, form, es, |es|);
    if TwoReadAsOne(reader, form, es) {
      var i, j :| 0 <= i < j < |es| && WithinAsRead(reader, form, es, i) && WithinAsRead(reader, form, es, j)
                  && KeyOf(reader(form(es[i])).value) == KeyOf(reader(form(es[j])).value);
      ReadAsOneIsTwo(reader, form, es, i, j);
    }
    if TwoWithin(all) {
      var a, b :| 0 <= a < b < |all| && KeyOf(all[a]) == KeyOf(all[b]) && Within(all, a) && Within(all, b);
      TwoAreReadAsOne(reader, form, es, a, b);
    }
  }

  /**
   For every list, a visit leaves a list newest first and at most 20 long.  A page is listed twice in
   it exactly when two of the items, the visit among them, are read under one key and both are new
   enough to be among the 20.
   */
  lemma UpsertIsDistinctIff(p: Platform, es: seq<Entry>, entry: Entry, now: int)
    ensures var r := Upsert(p, es, entry, now);
            && Sorting.Sorted(r, NewerFirst) && |r| <= 20
            && (DistinctKeys(r) <==> !TwoReadAsOne(Reader(p), LongForm, Visited(es, entry, now)))
  {
    var merged := Merged(p, es, entry, now);
    TopIsSorted(merged);
    TopIsDistinctIff(merged);
    TwoReadAsOneIff(Reader(p), LongForm, Visited(es, entry, now));
  }

  /** Whether some item has the key the visit reads as, and not the key it was given. */
  predicate Clashes(es: seq<Entry>, given: Key, read: Key) {
    read != given && exists e :: e in es && KeyOf(e) == read
  }

  predicate HasKey(es: seq<Entry>, key: Key) { exists i :: 0 <= i < |es| && KeyOf(es[i]) == key }

  lemma ClashIsAmongOthers(es: seq<Entry>, given: Key, read: Key)
    ensures Clashes(es, given, read) <==> HasKey(Without(es, given, |es|), read)
  {
    var others := Without(es, given, |es|);
    WithoutKeeps(es, given, |es|);
    assert es[..|es|] == es;
    if Clashes(es, given, read) {
      var e :| e in es && KeyOf(e) == read;
      assert e in others;
      var i :| 0 <= i < |others| && others[i] == e;
      assert HasKey(others, read);
    }
    if HasKey(others, read) {
      var i :| 0 <= i < |others| && KeyOf(others[i]) == read;
      assert others[i] in others;
      assert others[i] in es && KeyOf(others[i]) != given;
    }
  }

  /** The visit and an item under the key it reads as are both among the first 20. */
  predicate ClashIsKept(es: seq<Entry>, given: Key, read: Entry) {
    var merged := [read] + Without(es, given, |es|);
    Within(merged, 0) && exists k :: 0 < k < |merged| && KeyOf(merged[k]) == KeyOf(read) && Within(merged, k)
  }

  lemma TwoIffClashIsKept(es: seq<Entry>, given: Key, read: Entry)
    requires DistinctKeys(es)
    ensures TwoWithin([read] + Without(es, given, |es|)) <==> ClashIsKept(es, given, read)
  {
    var others := Without(es, given, |es|);
    var merged := [read] + others;
    WithoutKeeps(es, given, |es|);
    assert forall k :: 0 < k < |merged| ==> merged[k] == others[k - 1];
    if TwoWithin(merged) {
      var i, j :|
        0 <= i < j < |merged| && KeyOf(merged[i]) == KeyOf(merged[j]) && Within(merged, i) && Within(merged, j);
      assert i == 0;
    }
  }

  lemma KeptClashClashes(es: seq<Entry>, given: Key, read: Entry)
    requires ClashIsKept(es, given, read)
    ensures Clashes(es, given, KeyOf(read))
  {
    var others := Without(es, given, |es|);
    var merged := [read] + others;
    var k :| 0 < k < |merged| && KeyOf(merged[k]) == KeyOf(read) && Within(merged, k);
    assert others[k - 1] == merged[k];
    ClashIsAmongOthers(es, given, KeyOf(read));
  }

  /**
   Over a list of fixed entries under distinct keys that is when reading the visit gives it the key of
   another item and both are new enough to be among the 20; never when reading leaves its key alone.
   */
  lemma UpsertOfFixedIsDistinctIff(p: Platform, es: seq<Entry>, entry: Entry, now: int, read: Option<Entry>)
    requires (forall e :: e in es ==> Fixed(p, e)) && DistinctKeys(es)
    requires Reader(p)(LongForm(entry.(accessedAt := now))) == read
    ensures var r := Upsert(p, es, entry, now);
            && Sorting.Sorted(r, NewerFirst) && |r| <= 20
            && (DistinctKeys(r) <==> (read.Some? ==> !ClashIsKept(es, KeyOf(entry), read.value)))
    ensures read.Some? && ClashIsKept(es, KeyOf(entry), read.value) ==> Clashes(es, KeyOf(entry), KeyOf(read.value))
  {
    var merged := Merged(p, es, entry, now);
    MergedIs(p, es, entry, now, read);
    TopIsSorted(merged);
    TopIsDistinctIff(merged);
    if read.Some? {
      TwoIffClashIsKept(es, KeyOf(entry), read.value);
      assert Accept([], read) == [read.value];
      if ClashIsKept(es, KeyOf(entry), read.value) { KeptClashClashes(es, KeyOf(entry), read.value); }
    } else {
      WithoutKeeps(es, KeyOf(entry), |es|);
      assert [] + Without(es, KeyOf(entry), |es|) == Without(es, KeyOf(entry), |es|);
    }
  }

  lemma CleanedWith(p: Platform, get: Name -> Json, e: Entry, id: string, now: int)
    requires HasFields(get, e.(id := id, accessedAt := now)) && TextsReadAgain(e)
    ensures Cleaned(p, get, e.kind) == e.(id := CleanString(Str(id), 160), accessedAt := now)
  {
    assert ReadsAgain(e, UserId) && ReadsAgain(e, OrgSlug) && ReadsAgain(e, Title);
    assert ReadsAgain(e, Href) && ReadsAgain(e, Subtitle);
  }

  /** A fixed entry under another id and time is read with that time and the cleaned id. */
  lemma ReadsWith(p: Platform, e: Entry, id: string, now: int)
    requires Fixed(p, e) && CleanString(Str(id), 160) != ""
    ensures Reader(p)(LongForm(e.(id := id, accessedAt := now)))
            == Some(e.(id := CleanString(Str(id), 160), accessedAt := now))
  {
    NormalizedIsSafe(p, LongForm(e));
    FixedIffTextsAre(p, e);
    LongFormHasFields(e.(id := id, accessedAt := now));
    CleanedWith(p, LongForm(e.(id := id, accessedAt := now)).get, e, id, now);
  }

  lemma FixedId(p: Platform, e: Entry)
    requires Fixed(p, e)
    ensures e.id != "" && |e.id| <= 160 && Trim(e.id, Js) == e.id && CleanString(Str(e.id), 160) == e.id
  {
    NormalizedIsSafe(p, LongForm(e));
    FixedIffTextsAre(p, e);
    assert ReadsAgain(e, Id);
    CleaningShortText(e.id, 160);
  }

  /** An id in front of white space is read without it. */
  lemma PaddedReads(p: Platform, e: Entry, now: int)
    requires Fixed(p, e)
    ensures Reader(p)(LongForm(e.(id := " " + e.id, accessedAt := now))) == Some(e.(accessedAt := now))
  {
    FixedId(p, e);
    assert (" " + e.id)[1..] == e.id;
    assert CleanString(Str(" " + e.id), 160) == e.id;
    ReadsWith(p, e, " " + e.id, now);
  }

  /** For any fixed entry, a visit whose id is the same but for white space in front lists the page twice. */
  lemma PaddedVisitDoubles(p: Platform, e: Entry, now: int)
    requires Fixed(p, e)
    ensures DistinctKeys([e]) && !DistinctKeys(Upsert(p, [e], e.(id := " " + e.id), now))
  {
    var entry, read := e.(id := " " + e.id), e.(accessedAt := now);
    PaddedReads(p, e, now);
    UpsertOfFixedIsDistinctIff(p, [e], entry, now, Some(read));
    assert Without([e], KeyOf(entry), 1) == Without([e], KeyOf(entry), 0) + [e] == [e];
    var merged := [read] + [e];
    NewerFirstIsOrder();
    Sorting.SortPlaces(merged, NewerFirst, 0);
    Sorting.SortPlaces(merged, NewerFirst, 1);
    assert KeyOf(merged[1]) == KeyOf(read) && Within(merged, 1);
  }

  /** An id cut behind white space is read first with that white space and then without it. */
  lemma CutIdReads(p: Platform, e: Entry)
    requires Fixed(p, e) && |e.id| == 159
    ensures Reader(p)(LongForm(e.(id := e.id + " z"))) == Some(e.(id := e.id + " "))
    ensures Reader(p)(LongForm(e.(id := e.id + " "))) == Some(e)
  {
    FixedId(p, e);
    TrimmedIff(e.id);
    TrimmedIff(e.id + " z");
    assert (e.id + " z")[..160] == e.id + " ";
    ReadsWith(p, e, e.id + " z", e.accessedAt);
    TrimDropsLast(e.id + " ", Js);
    assert (e.id + " ")[..159] == e.id;
    ReadsWith(p, e, e.id + " ", e.accessedAt);
  }

  /** Few entries are all among the first 20. */
  lemma FewAreWithin(reader: Json -> Option<Entry>, form: Entry -> Json, es: seq<Entry>, i: nat)
    requires i < |es| <= LIMIT && reader(form(es[i])).Some?
    ensures WithinAsRead(reader, form, es, i)
  {
    ItemIsRead(reader, form, es, i);
    AsReadGrows(reader, form, es, 0, |es|);
    NewerFirstIsOrder();
    Sorting.SortPlaces(AsRead(reader, form, es, |es|), NewerFirst, |AsRead(reader, form, es, i)|);
  }

  /** Items 1 and 2 of a short list that are read under one key are both kept. */
  lemma NeighboursReadAsOne(reader: Json -> Option<Entry>, form: Entry -> Json, es: seq<Entry>)
    requires 2 < |es| <= LIMIT && reader(form(es[1])).Some? && reader(form(es[2])).Some?
    requires KeyOf(reader(form(es[1])).value) == KeyOf(reader(form(es[2])).value)
    ensures TwoReadAsOne(reader, form, es)
  {
    FewAreWithin(reader, form, es, 1);
    FewAreWithin(reader, form, es, 2);
  }

  lemma CutIdList(p: Platform, e: Entry)
    requires Fixed(p, e) && |e.id| == 159
    ensures AsRead(Reader(p), LongForm, [e.(id := e.id + " z"), e], 2) == [e.(id := e.id + " "), e]
  {
    CutIdReads(p, e);
    FixedReads(p, e);
    ReadsTwo(Reader(p), LongForm, e.(id := e.id + " z"), e);
  }

  lemma CutIdVisited(p: Platform, e: Entry, visit: Entry, now: int)
    requires Fixed(p, e) && |e.id| == 159
    requires KeyOf(visit) != KeyOf(e) && KeyOf(visit) != KeyOf(e.(id := e.id + " "))
    ensures TwoReadAsOne(Reader(p), LongForm, Visited([e.(id := e.id + " "), e], visit, now))
  {
    CutIdReads(p, e);
    FixedReads(p, e);
    OtherKeysStay(e.(id := e.id + " "), e, KeyOf(visit));
    NeighboursReadAsOne(Reader(p), LongForm, Visited([e.(id := e.id + " "), e], visit, now));
  }

  /**
   A list under distinct keys, as the cookie gives it when the longer id was cut behind white space:
   any visit to another page lists the fixed entry twice.
   */
  lemma AnyVisitDoublesCutId(p: Platform, e: Entry, visit: Entry, now: int)
    requires Fixed(p, e) && |e.id| == 159
    requires KeyOf(visit) != KeyOf(e) && KeyOf(visit) != KeyOf(e.(id := e.id + " "))
    ensures var es := [e.(id := e.id + " "), e];
            && AsRead(Reader(p), LongForm, [e.(id := e.id + " z"), e], 2) == es && DistinctKeys(es)
            && !DistinctKeys(Upsert(p, es, visit, now))
  {
    CutIdList(p, e);
    LongerIdIsAnotherKey(e);
    CutIdVisited(p, e, visit, now);
    ReadAsOneDoubles(p, [e.(id := e.id + " "), e], visit, now);
  }

  lemma LongerIdIsAnotherKey(e: Entry)
    ensures DistinctKeys([e.(id := e.id + " "), e])
  {
    assert |e.id + " "| == |e.id| + 1;
  }

  lemma ReadAsOneDoubles(p: Platform, es: seq<Entry>, entry: Entry, now: int)
    requires TwoReadAsOne(Reader(p), LongForm, Visited(es, entry, now))
    ensures !DistinctKeys(Upsert(p, es, entry, now))
  {
    UpsertIsDistinctIff(p, es, entry, now);
  }

  lemma OtherKeysStay(a: Entry, b: Entry, key: Key)
    requires KeyOf(a) != key && KeyOf(b) != key
    ensures Without([a, b], key, 2) == [a, b]
  {
    assert Without([a, b], key, 1) == Without([a, b], key, 0) + [a] == [a];
  }

  lemma ReadsTwo(reader: Json -> Option<Entry>, form: Entry -> Json, a: Entry, b: Entry)
    requires reader(form(a)).Some? && reader(form(b)).Some?
    ensures AsRead(reader, form, [a, b], 2) == [reader(form(a)).value, reader(form(b)).value]
  {
    AsReadOneMore(reader, form, [a, b], 0);
    AsReadOneMore(reader, form, [a, b], 1);
  }

  const SAMPLE := Entry("u", "i", "admin-module", Admin, None, "t", "/admin", 0, None)

  lemma SampleIsComplete()
    ensures Complete(SAMPLE) && IsKind(SAMPLE.kind)
  {
    assert SAMPLE.kind == KINDS[|KINDS| - 1];
    assert SAMPLE.href[1] == 'a';
  }

  lemma PlainTextIsClean(t: string, max: nat)
    requires |t| <= max && Trimmed(t, Js)
    ensures CleanString(Str(t), max) == t
  {
    CleaningShortText(t, max);
    TrimmedIff(t);
  }

  predicate Plain(t: string, max: nat) { |t| <= max && Trimmed(t, Js) }

  predicate PlainOption(t: Option<string>, max: nat) { t.Some? ==> t.value != "" && Plain(t.value, max) }

  predicate PlainTexts(e: Entry) {
    && Plain(e.userId, 160) && Plain(e.id, 160) && Plain(e.title, 160) && Plain(e.href, 320)
    && PlainOption(e.orgSlug, 120) && PlainOption(e.subtitle, 220)
  }

  lemma PlainOptionIsClean(t: Option<string>, max: nat)
    requires PlainOption(t, max)
    ensures NonEmpty(CleanString(TextOf(t), max)) == t
  {
    if t.Some? { PlainTextIsClean(t.value, max); }
  }

  lemma PlainReadsAgain(e: Entry)
    requires PlainTexts(e)
    ensures TextsReadAgain(e)
  {
    PlainTextIsClean(e.userId, 160);
    PlainTextIsClean(e.id, 160);
    PlainTextIsClean(e.title, 160);
    PlainTextIsClean(e.href, 320);
    PlainOptionIsClean(e.orgSlug, 120);
    PlainOptionIsClean(e.subtitle, 220);
  }

  /** An entry of short, trimmed texts is read as it is exactly when it is complete and links home. */
  lemma PlainIsReadIff(p: Platform, e: Entry)
    requires IsKind(e.kind) && PlainTexts(e)
    ensures Normalize(p, LongForm(e))
            == if e.userId != "" && e.id != "" && e.title != "" && LinksHome(e) then Some(e) else None
  {
    ReadsLong(e, Kind);
    PlainReadsAgain(e);
    LongFormHasFields(e);
    CleanedAgainIff(p, LongForm(e).get, e);
    AllowedIffHome(e);
  }

  /** Reading leaves every complete entry of short, trimmed texts alone. */
  lemma PlainIsFixed(p: Platform, e: Entry)
    requires Complete(e) && IsKind(e.kind) && PlainTexts(e)
    ensures Fixed(p, e)
  {
    PlainIsReadIff(p, e);
    AllowedIffHome(e);
  }

  /** There are such entries, on every platform. */
  lemma SampleIsFixed(p: Platform)
    ensures Fixed(p, SAMPLE)
  {
    SampleIsComplete();
    PlainIsFixed(p, SAMPLE);
  }

  const LONG_ID := seq(159, i => 'x')

  /** Also one with an id that long. */
  lemma LongIdIsFixed(p: Platform)
    ensures Fixed(p, SAMPLE.(id := LONG_ID)) && |LONG_ID| == 159
  {
    SampleIsComplete();
    PlainIsFixed(p, SAMPLE.(id := LONG_ID));
  }

  lemma PlainSample()
    ensures CleanString(Str("u"), 160) == "u" && CleanString(Str("i"), 160) == "i"
    ensures CleanString(Str("/admin"), 320) == "/admin"
  {
    PlainTextIsClean("u", 160);
    PlainTextIsClean("i", 160);
    PlainTextIsClean("/admin", 320);
  }

  /**
   An entry that reading changes a second time: whenever the 160th character of a longer title is
   white space, the cut leaves a title that ends in white space.
   */
  lemma LongTitleIsCutTwice(p: Platform, t: string)
    requires Trimmed(t, Js) && |t| > 160 && IsSpace(t[159], Js)
    ensures var r := Normalize(p, LongForm(SAMPLE.(title := t))); r.Some? && !Fixed(p, r.value)
  {
    var e := SAMPLE.(title := t);
    LongFormHasFields(e);
    SampleIsComplete();
    PlainSample();
    TrimmedIff(t);
    SampleReads(p, LongForm(e).get, e);
    assert CutBehindSpace(Str(t), MaxOf(Title));
    assert Read(LongForm(e).get, Title) == Str(t);
    NormalizedIsFixedIff(p, LongForm(e));
  }

  lemma SampleReads(p: Platform, get: Name -> Json, e: Entry)
    requires HasFields(get, e) && e == SAMPLE.(title := e.title) && IsKind(SAMPLE.kind) && Complete(SAMPLE)
    requires CleanString(Str("u"), 160) == "u" && CleanString(Str("i"), 160) == "i"
    requires CleanString(Str("/admin"), 320) == "/admin" && CleanString(Str(e.title), 160) != ""
    ensures Normalize(p, Obj(get)).Some?
  {
    var r := Cleaned(p, get, e.kind);
    assert r.userId == "u" && r.id == "i" && r.area == Admin && r.orgSlug == None && r.href == "/admin";
  }

  /** First in the list and not older than anything in it, an entry stays first. */
  lemma NewestStaysFirst(first: Entry, rest: seq<Entry>)
    requires forall e :: e in rest ==> e.accessedAt <= first.accessedAt
    ensures TopOf([first] + rest) != [] && TopOf([first] + rest)[0] == first
  {
    assert ([first] + rest)[1..] == rest;
    var sorted := Sorting.Sort(rest, NewerFirst);
    Sorting.SortKeepsElements(rest, NewerFirst);
    if sorted != [] {
      assert sorted[0] in multiset(rest);
      assert sorted[0] in rest;
    }
  }

  lemma TimeIsRead(p: Platform, j: Json, t: int, read: Entry)
    requires j.Obj? && Read(j.get, AccessedAt) == Num(t) && Reader(p)(j) == Some(read)
    ensures read.accessedAt == t
  {
  }

  lemma ReadsTime(e: Entry)
    ensures LongForm(e).Obj? && Read(LongForm(e).get, AccessedAt) == Num(e.accessedAt)
  {
  }

  lemma VisitTime(p: Platform, visit: Entry, read: Entry)
    requires Reader(p)(LongForm(visit)) == Some(read)
    ensures read.accessedAt == visit.accessedAt
  {
    ReadsTime(visit);
    TimeIsRead(p, LongForm(visit), visit.accessedAt, read);
  }

  lemma OthersAreFrom(es: seq<Entry>, key: Key, now: int)
    requires forall e :: e in es ==> e.accessedAt <= now
    ensures forall e :: e in Without(es, key, |es|) ==> e.accessedAt <= now
  {
    WithoutKeeps(es, key, |es|);
    assert es[..|es|] == es;
  }

  /** Reading changes no time. */
  lemma ReadsNothingLater(p: Platform, es: seq<Entry>, now: int)
    requires forall e :: e in es ==> e.accessedAt <= now
    ensures forall e :: e in AsRead(Reader(p), LongForm, es, |es|) ==> e.accessedAt <= now
  {
    var all := AsRead(Reader(p), LongForm, es, |es|);
    forall q | 0 <= q < |all| ensures all[q].accessedAt <= now {
      var i := ReadItemIsFrom(Reader(p), LongForm, es, |es|, q);
      VisitTime(p, es[i], all[q]);
      assert es[i] in es;
    }
  }

  /** The visit comes first, in every list, when it can be read and nothing in the list is later than now. */
  lemma VisitComesFirst(p: Platform, es: seq<Entry>, entry: Entry, now: int, read: Entry)
    requires forall e :: e in es ==> e.accessedAt <= now
    requires Reader(p)(LongForm(entry.(accessedAt := now))) == Some(read)
    ensures var r := Upsert(p, es, entry, now); r != [] && r[0] == read
  {
    var others := Without(es, KeyOf(entry), |es|);
    VisitTime(p, entry.(accessedAt := now), read);
    OthersAreFrom(es, KeyOf(entry), now);
    ReadsNothingLater(p, others, now);
    VisitBeforeOthers(Reader(p), LongForm, es, entry, now);
    NewestStaysFirst(read, AsRead(Reader(p), LongForm, others, |others|));
    assert [] + [read] == [read];
  }
}
