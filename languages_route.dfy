/**
 * The admin languages endpoint: `POST` creates a language, first clearing
 * every other default when the new one is the default, and `GET` lists the
 * languages default first, then active first, then by code.
 */
module LanguagesRoute {
  import opened Base
  import opened Strings
  import opened LanguageData

  /** The JSON body of a `POST`; an empty string stands for a missing or falsy field. */
  datatype CreateBody = CreateBody(code: string, name: string, isDefault: Option<bool>, isActive: Option<bool>)

  datatype Response =
    | Created(language: Language)
    | Listed(languages: seq<Language>)
    | Error(status: int, message: string)

  /** How `requireAdmin` ended: `Some(status)` when it threw an error with that status. */
  type AuthOutcome = Option<int>

  /** The response for an error with a `status` field and no Prisma `code`. */
  function StatusError(status: int, fallback: string): (r: Response)
    ensures status == 401 || status == 403 ==> r == Error(status, "Unauthorized")
    ensures status != 401 && status != 403 ==> r == Error(500, fallback)
  {
    if status == 401 || status == 403 then Error(status, "Unauthorized") else Error(500, fallback)
  }

  /** `updateMany({ where: { isDefault: true }, data: { isDefault: false } })`. */
  function ClearDefaults(rows: seq<Language>): (r: seq<Language>)
    ensures |r| == |rows|
    ensures forall i :: 0 <= i < |r| ==> r[i] == rows[i].(isDefault := false)
  {
    seq(|rows|, i requires 0 <= i < |rows| => rows[i].(isDefault := false))
  }

  predicate NoDefault(rows: seq<Language>) {
    forall i :: 0 <= i < |rows| ==> !rows[i].isDefault
  }

  /** At most one row is the default. */
  predicate AtMostOneDefault(rows: seq<Language>) {
    forall i, j :: 0 <= i < |rows| && 0 <= j < |rows| && rows[i].isDefault && rows[j].isDefault ==> i == j
  }

  predicate CodeTaken(rows: seq<Language>, code: string) {
    exists i :: 0 <= i < |rows| && rows[i].code == code
  }

  /** The row `create` stores: `isDefault || false`, and `isActive` true unless given. */
  function NewRow(id: string, body: CreateBody): (l: Language)
    ensures l.id == id && l.code == body.code && l.name == body.name
    ensures l.isDefault <==> body.isDefault == Some(true)
    ensures l.isActive <==> body.isActive != Some(false)
  {
    Language(id, body.code, body.name, body.isDefault.GetOr(false), body.isActive.GetOr(true))
  }

  /** The table once the defaults have been cleared, if the body asks for a new default. */
  function BeforeCreate(rows: seq<Language>, body: CreateBody): (r: seq<Language>)
    ensures |r| == |rows| && forall i :: 0 <= i < |r| ==> r[i].(isDefault := rows[i].isDefault) == rows[i]
    ensures body.isDefault == Some(true) ==> NoDefault(r)
    ensures body.isDefault != Some(true) ==> r == rows
  {
    if body.isDefault == Some(true) then ClearDefaults(rows) else rows
  }

  /** After a create with `isDefault`, the new row is the one and only default. */
  lemma NewDefaultIsOnlyDefault(rows: seq<Language>, id: string, body: CreateBody)
    requires body.isDefault == Some(true)
    ensures var after := BeforeCreate(rows, body) + [NewRow(id, body)];
      after[|after| - 1].isDefault && forall i :: 0 <= i < |after| - 1 ==> !after[i].isDefault
  {
  }

  /** A create without `isDefault` leaves every existing row as it was and adds a non-default. */
  lemma CreateWithoutDefaultKeepsRows(rows: seq<Language>, id: string, body: CreateBody)
    requires body.isDefault != Some(true)
    ensures BeforeCreate(rows, body) + [NewRow(id, body)] == rows + [NewRow(id, body)]
    ensures !NewRow(id, body).isDefault
  {
  }

  /** Either way, a table with at most one default still has at most one after a create. */
  lemma CreateKeepsAtMostOneDefault(rows: seq<Language>, id: string, body: CreateBody)
    requires AtMostOneDefault(rows)
    ensures AtMostOneDefault(BeforeCreate(rows, body) + [NewRow(id, body)])
  {
    var after := BeforeCreate(rows, body) + [NewRow(id, body)];
    if body.isDefault == Some(true) {
      NewDefaultIsOnlyDefault(rows, id, body);
    } else {
      assert forall i :: 0 <= i < |rows| ==> after[i] == rows[i];
    }
  }

  /**
   * The two steps are separate writes: when the create fails after the
   * clear, the table is left without any default.
   */
  lemma FailedCreateLeavesNoDefault(rows: seq<Language>, body: CreateBody)
    requires body.isDefault == Some(true)
    ensures NoDefault(BeforeCreate(rows, body))
    ensures rows != [] && rows[0].isDefault ==> BeforeCreate(rows, body) != rows
  {
    if rows != [] && rows[0].isDefault {
      assert !BeforeCreate(rows, body)[0].isDefault;
    }
  }

  /** Prisma's order: `isDefault` descending, then `isActive` descending, then `code` ascending. */
  predicate ListedBefore(a: Language, b: Language)
    ensures ListedBefore(a, b) ==> a.isDefault || !b.isDefault
    ensures ListedBefore(a, b) && a.isDefault == b.isDefault ==> a.isActive || !b.isActive
    ensures a.isDefault == b.isDefault && a.isActive == b.isActive ==> (ListedBefore(a, b) <==> LexLe(a.code, b.code))
  {
    (a.isDefault && !b.isDefault) ||
    (a.isDefault == b.isDefault && ((a.isActive && !b.isActive) || (a.isActive == b.isActive && LexLe(a.code, b.code))))
  }

  lemma ListedBeforeTotal(a: Language, b: Language)
    ensures ListedBefore(a, b) || ListedBefore(b, a)
  {
    LexLeTotal(a.code, b.code);
  }

  lemma ListedBeforeTransitive(a: Language, b: Language, c: Language)
    requires ListedBefore(a, b) && ListedBefore(b, c)
    ensures ListedBefore(a, c)
  {
    if a.isDefault == b.isDefault == c.isDefault && a.isActive == b.isActive == c.isActive {
      LexLeTransitive(a.code, b.code, c.code);
    }
  }

  /** Two languages that each sort no later than the other share their flags and their code. */
  lemma ListedBeforeAntisymmetric(a: Language, b: Language)
    requires ListedBefore(a, b) && ListedBefore(b, a)
    ensures a.isDefault == b.isDefault && a.isActive == b.isActive && a.code == b.code
  {
    if a.isDefault == b.isDefault && a.isActive == b.isActive {
      LexLeAntisymmetric(a.code, b.code);
    }
  }

  predicate InListingOrder(s: seq<Language>) {
    forall i, j :: 0 <= i < j < |s| ==> ListedBefore(s[i], s[j])
  }

  function Insert(x: Language, s: seq<Language>): (r: seq<Language>)
    ensures multiset(r) == multiset(s) + multiset{x}
  {
    if s == [] then [x]
    else if ListedBefore(x, s[0]) then [x] + s
    else
      assert s == [s[0]] + s[1..];
      [s[0]] + Insert(x, s[1..])
  }

  /** A language listed before every row of an ordered listing can go in front of it. */
  lemma ConsListed(h: Language, t: seq<Language>)
    requires InListingOrder(t)
    requires forall k :: 0 <= k < |t| ==> ListedBefore(h, t[k])
    ensures InListingOrder([h] + t)
  {
    var r := [h] + t;
    forall i, j | 0 <= i < j < |r| ensures ListedBefore(r[i], r[j]) {
      assert r[j] == t[j - 1];
      if i > 0 {
        assert r[i] == t[i - 1];
      }
    }
  }

  /** Every row of an insertion is the inserted one or was already there. */
  lemma InsertElement(x: Language, s: seq<Language>, k: nat)
    requires k < |Insert(x, s)|
    ensures Insert(x, s)[k] == x || Insert(x, s)[k] in s
  {
    var r := Insert(x, s);
    assert r[k] in multiset(r);
  }

  lemma TailListed(s: seq<Language>)
    requires s != [] && InListingOrder(s)
    ensures InListingOrder(s[1..])
  {
    forall i, j | 0 <= i < j < |s[1..]| ensures ListedBefore(s[1..][i], s[1..][j]) {
      assert s[1..][i] == s[i + 1] && s[1..][j] == s[j + 1];
    }
  }

  lemma {:induction false} InsertListed(x: Language, s: seq<Language>)
    requires InListingOrder(s)
    ensures InListingOrder(Insert(x, s))
  {
    if s == [] {
    } else if ListedBefore(x, s[0]) {
      forall k | 0 <= k < |s| ensures ListedBefore(x, s[k]) {
        if k > 0 {
          ListedBeforeTransitive(x, s[0], s[k]);
        }
      }
      ConsListed(x, s);
    } else {
      ListedBeforeTotal(x, s[0]);
      var rest := Insert(x, s[1..]);
      TailListed(s);
      InsertListed(x, s[1..]);
      forall k | 0 <= k < |rest| ensures ListedBefore(s[0], rest[k]) {
        InsertElement(x, s[1..], k);
        if rest[k] != x {
          var m :| 0 <= m < |s[1..]| && s[1..][m] == rest[k];
          assert s[m + 1] == rest[k];
        }
      }
      ConsListed(s[0], rest);
    }
  }

  /** The rows in the order `findMany` returns them. */
  function SortLanguages(rows: seq<Language>): (r: seq<Language>)
    ensures multiset(r) == multiset(rows)
  {
    if rows == [] then []
    else
      assert rows == [rows[0]] + rows[1..];
      Insert(rows[0], SortLanguages(rows[1..]))
  }

  /** The listing is ordered and holds exactly the stored rows. */
  lemma {:induction false} SortLanguagesListed(rows: seq<Language>)
    ensures InListingOrder(SortLanguages(rows))
    ensures multiset(SortLanguages(rows)) == multiset(rows)
  {
    if rows != [] {
      SortLanguagesListed(rows[1..]);
      InsertListed(rows[0], SortLanguages(rows[1..]));
    }
  }

  /** The language table. */
  class Registry {
    var languages: seq<Language>

    constructor (rows: seq<Language>)
      ensures languages == rows
    {
      languages := rows;
    }

    /**
     * `POST /api/admin/languages`. `body` is `None` when the request body is
     * not JSON; `newId` is the id the database gives the new row, and
     * `dbFault` a failure of the insert other than a duplicate code.
     */
    method Post(auth: AuthOutcome, body: Option<CreateBody>, newId: string, dbFault: bool) returns (resp: Response)
      modifies this
      ensures auth.Some? ==> resp == StatusError(auth.value, "Failed to create language") && languages == old(languages)
      ensures auth.None? && body.None? ==> resp == Error(500, "Failed to create language") && languages == old(languages)
      ensures auth.None? && body.Some? && (body.value.code == "" || body.value.name == "") ==>
        resp == Error(400, "Code and name are required") && languages == old(languages)
      ensures auth.None? && body.Some? && body.value.code != "" && body.value.name != "" ==>
        var cleared := BeforeCreate(old(languages), body.value);
        if CodeTaken(old(languages), body.value.code) then
          resp == Error(409, "Language code already exists") && languages == cleared
        else if dbFault then
          resp == Error(500, "Failed to create language") && languages == cleared
        else
          resp == Created(NewRow(newId, body.value)) && languages == cleared + [NewRow(newId, body.value)]
      ensures resp.Created? ==> AtMostOneDefault(old(languages)) ==> AtMostOneDefault(languages)
    {
      if auth.Some? {
        return StatusError(auth.value, "Failed to create language");
      }
      if body.None? {
        return Error(500, "Failed to create language");
      }
      var b := body.value;
      if b.code == "" || b.name == "" {
        return Error(400, "Code and name are required");
      }
      var existing := languages;
      if b.isDefault == Some(true) {
        languages := ClearDefaults(languages);
      }
      if CodeTaken(existing, b.code) {
        return Error(409, "Language code already exists");
      }
      if dbFault {
        return Error(500, "Failed to create language");
      }
      var row := NewRow(newId, b);
      languages := languages + [row];
      resp := Created(row);
      if AtMostOneDefault(old(languages)) {
        CreateKeepsAtMostOneDefault(old(languages), newId, b);
      }
    }

    /** `GET /api/admin/languages`, with `dbFault` a failing query. */
    method Get(auth: AuthOutcome, dbFault: bool) returns (resp: Response)
      ensures auth.Some? ==> resp == StatusError(auth.value, "Failed to fetch languages")
      ensures auth.None? && dbFault ==> resp == Error(500, "Failed to fetch languages")
      ensures auth.None? && !dbFault ==> resp == Listed(SortLanguages(languages))
      ensures resp.Listed? ==> InListingOrder(resp.languages) && multiset(resp.languages) == multiset(languages)
    {
      if auth.Some? {
        return StatusError(auth.value, "Failed to fetch languages");
      }
      if dbFault {
        return Error(500, "Failed to fetch languages");
      }
      SortLanguagesListed(languages);
      resp := Listed(SortLanguages(languages));
    }
  }
}
