/**
 * The request dispatch of the Cloudflare worker in
 * cloudflare-api/src/index.js: the CORS preflight, the public routes, the
 * admin gate, and the validation of inquiry and banner bodies, including the
 * SET clause `updateBanner` builds.
 */
module WorkerApi {
  import opened Wrappers
  import opened Text

  /** `ADMIN_ID`. */
  const AdminId: string := "codepedia"

  /** The handler `fetch` hands a request to, or the response it gives itself. */
  datatype Route =
    | Preflight | PostInquiry | Health | TrackDownload | DownloadStats | AdminLogin
    | Unauthorized
    | ListInquiries | UpdateInquiry | DeleteInquiry | GetStats | SetStats
    | ActiveBanners | BannerImage | AllBanners | CreateBanner | UpdateBanner | DeleteBanner
    | UploadBannerImage | DownloadDetails | BlockedIPs | UnblockIP
    | NotFound

  /** The handlers reached only behind the admin gate. */
  predicate IsAdminRoute(r: Route)
  {
    r.ListInquiries? || r.UpdateInquiry? || r.DeleteInquiry? || r.GetStats? || r.SetStats?
    || r.AllBanners? || r.CreateBanner? || r.UpdateBanner? || r.DeleteBanner?
    || r.UploadBannerImage? || r.DownloadDetails? || r.BlockedIPs? || r.UnblockIP?
  }

  /** `adminPaths`. */
  const AdminPaths: seq<string> := [
    "/api/admin/inquiries", "/api/admin/inquiry/", "/api/admin/stats", "/api/admin/banners",
    "/api/admin/banner/", "/api/admin/downloads", "/api/admin/blocked"]

  /** `adminPaths.some(p => path.startsWith(p))`. */
  predicate IsAdminPath(path: string)
  {
    exists i :: 0 <= i < |AdminPaths| && StartsWith(path, AdminPaths[i])
  }

  /**
   * `verifyAdmin(request)`: the `Authorization` header (`None` when absent)
   * starts with `Bearer `, and the rest, base64-decoded by `atob` (`None`
   * when `atob` throws), starts with `codepedia:`.
   */
  predicate VerifyAdmin(authorization: Option<string>, atob: string -> Option<string>)
  {
    authorization.Some? && StartsWith(authorization.value, "Bearer ")
    && var decoded := atob(authorization.value[7..]);
    decoded.Some? && StartsWith(decoded.value, AdminId + ":")
  }

  /** The header is accepted exactly when it is `Bearer ` and a token that decodes to `codepedia:` and anything. */
  lemma VerifyAdminSpec(authorization: Option<string>, atob: string -> Option<string>)
    ensures VerifyAdmin(authorization, atob) <==>
      exists token, rest :: authorization == Some("Bearer " + token) && atob(token) == Some("codepedia:" + rest)
  {
    if VerifyAdmin(authorization, atob) {
      var token := authorization.value[7..];
      var d := atob(token).value;
      assert authorization.value == authorization.value[..7] + token;
      assert authorization == Some("Bearer " + token);
      assert d == "codepedia:" + d[10..];
    }
    if exists token, rest :: authorization == Some("Bearer " + token) && atob(token) == Some("codepedia:" + rest) {
      var token, rest :| authorization == Some("Bearer " + token) && atob(token) == Some("codepedia:" + rest);
      assert authorization.value[7..] == token;
      assert ("codepedia:" + rest)[..10] == "codepedia:";
    }
  }

  /** The dispatch after the admin gate, in the order of the `if` chain. */
  function GatedRoute(verb: string, path: string): Route
  {
    if path == "/api/admin/inquiries" && verb == "GET" then ListInquiries
    else if StartsWith(path, "/api/admin/inquiry/") && verb == "PATCH" then UpdateInquiry
    else if StartsWith(path, "/api/admin/inquiry/") && verb == "DELETE" then DeleteInquiry
    else if path == "/api/admin/stats" && verb == "GET" then GetStats
    else if path == "/api/admin/stats" && verb == "POST" then SetStats
    else if path == "/api/banners" && verb == "GET" then ActiveBanners
    else if StartsWith(path, "/api/banner/image/") && verb == "GET" then BannerImage
    else if path == "/api/admin/banners" && verb == "GET" then AllBanners
    else if path == "/api/admin/banners" && verb == "POST" then CreateBanner
    else if StartsWith(path, "/api/admin/banner/") && verb == "PATCH" then UpdateBanner
    else if StartsWith(path, "/api/admin/banner/") && verb == "DELETE" then DeleteBanner
    else if path == "/api/admin/banner/upload" && verb == "POST" then UploadBannerImage
    else if path == "/api/admin/downloads" && verb == "GET" then DownloadDetails
    else if path == "/api/admin/blocked" && verb == "GET" then BlockedIPs
    else if StartsWith(path, "/api/admin/blocked/") && verb == "DELETE" then UnblockIP
    else NotFound
  }

  /** The routes `fetch` serves before the admin gate. */
  function PublicRoute(verb: string, path: string): Option<Route>
  {
    if path == "/api/inquiry" && verb == "POST" then Some(PostInquiry)
    else if path == "/api/health" then Some(Health)
    else if path == "/api/download" && verb == "POST" then Some(TrackDownload)
    else if path == "/api/download/stats" && verb == "GET" then Some(DownloadStats)
    else if path == "/api/admin/login" && verb == "POST" then Some(AdminLogin)
    else None
  }

  /**
   * `fetch(request)`: OPTIONS first, then the public routes, then a 401 for
   * an admin path without a valid token, then the remaining routes.
   */
  function RouteOf(verb: string, path: string, authorization: Option<string>, atob: string -> Option<string>): Route
  {
    if verb == "OPTIONS" then Preflight
    else if PublicRoute(verb, path).Some? then PublicRoute(verb, path).value
    else if IsAdminPath(path) && !VerifyAdmin(authorization, atob) then Unauthorized
    else GatedRoute(verb, path)
  }

  /** Every admin handler lies under one of the admin prefixes. */
  lemma GatedAdminPath(verb: string, path: string)
    ensures IsAdminRoute(GatedRoute(verb, path)) ==> IsAdminPath(path)
  {
    var r := GatedRoute(verb, path);
    if r.ListInquiries? || r.GetStats? || r.SetStats? || r.AllBanners? || r.CreateBanner?
      || r.DownloadDetails? || r.BlockedIPs? {
      assert StartsWith(path, path);
      assert path in AdminPaths;
    } else if r.UpdateInquiry? || r.DeleteInquiry? {
      assert StartsWith(path, AdminPaths[1]);
    } else if r.UpdateBanner? || r.DeleteBanner? {
      assert StartsWith(path, AdminPaths[4]);
    } else if r.UploadBannerImage? {
      assert path[..|AdminPaths[4]|] == AdminPaths[4];
      assert StartsWith(path, AdminPaths[4]);
    } else if r.UnblockIP? {
      assert path[..|AdminPaths[6]|] == path[..19][..18];
      assert StartsWith(path, AdminPaths[6]);
    }
  }

  /** No public path lies under an admin prefix, so the public routes never meet the gate. */
  lemma PublicNotAdmin(verb: string, path: string)
    requires PublicRoute(verb, path).Some?
    ensures !IsAdminPath(path)
  {
    forall i | 0 <= i < |AdminPaths|
      ensures !StartsWith(path, AdminPaths[i])
    {
      var q := AdminPaths[i];
      assert q[5] == 'a' && q[11] != 'l';
      if |q| <= |path| {
        assert path[5] != q[5] || path[11] != q[11];
        assert path[..|q|][5] == path[5] && path[..|q|][11] == path[11];
      }
    }
  }

  /**
   * The gate: a preflight is answered for any path; no admin handler runs
   * without a valid token; on an admin path (other than a preflight) the
   * request is refused exactly when the token is not valid; and the refusal
   * happens only there.
   */
  lemma AdminGate(verb: string, path: string, authorization: Option<string>, atob: string -> Option<string>)
    ensures RouteOf(verb, path, authorization, atob) == Preflight <==> verb == "OPTIONS"
    ensures IsAdminRoute(RouteOf(verb, path, authorization, atob)) ==>
      VerifyAdmin(authorization, atob) && IsAdminPath(path)
    ensures verb != "OPTIONS" && IsAdminPath(path) ==>
      (RouteOf(verb, path, authorization, atob) == Unauthorized <==> !VerifyAdmin(authorization, atob))
    ensures RouteOf(verb, path, authorization, atob) == Unauthorized ==>
      IsAdminPath(path) && !VerifyAdmin(authorization, atob)
  {
    GatedAdminPath(verb, path);
    if PublicRoute(verb, path).Some? {
      PublicNotAdmin(verb, path);
    }
  }

  /** The active-banner list, the banner images and the public routes need no token. */
  lemma PublicRoutesOpen(verb: string, path: string, authorization: Option<string>, atob: string -> Option<string>)
    requires verb != "OPTIONS"
    ensures PublicRoute(verb, path).Some? ==> RouteOf(verb, path, authorization, atob) == PublicRoute(verb, path).value
    ensures path == "/api/banners" && verb == "GET" ==> RouteOf(verb, path, authorization, atob) == ActiveBanners
  {
  }

  /** A request body's refusal: its status and the `error` text. */
  datatype Checked<T> = Accepted(value: T) | Rejected(status: int, message: string)

  /**
   * The body fields of `POST /api/inquiry`, each `""` when missing (every
   * missing or empty field is falsy alike).
   */
  datatype InquiryBody = InquiryBody(kind: string, email: string, content: string, version: string)

  /** The row `handleInquiry` inserts. */
  datatype Inquiry = Inquiry(kind: string, email: string, content: string, version: string, ip: string)

  const InquiryTypes: seq<string> := ["general", "ads", "bug"]

  /** A character `[^\s@]` accepts. */
  predicate Plain(c: char) { !IsJsSpace(c) && c != '@' }

  predicate PlainRun(s: string) { s != [] && forall k :: 0 <= k < |s| ==> Plain(s[k]) }

  /** `/^[^\s@]+@[^\s@]+\.[^\s@]+$/.test(email)`, the pattern split at its `@` and its `.`. */
  predicate EmailPattern(s: string)
  {
    exists i, j :: 0 < i && i + 1 < j && j + 1 < |s| && s[i] == '@' && s[j] == '.'
      && PlainRun(s[..i]) && PlainRun(s[i + 1..j]) && PlainRun(s[j + 1..])
  }

  /**
   * What the pattern asks of an address: no white space, exactly one `@`,
   * not first, and a `.` strictly inside the part after it.
   */
  predicate EmailShape(s: string)
  {
    (forall k :: 0 <= k < |s| ==> !IsJsSpace(s[k])) && exists i :: 0 < i < |s| && OnlyAtAt(s, i)
  }

  /** `s[i]` is the one `@` of `s`, and a `.` lies strictly inside the part after it. */
  predicate OnlyAtAt(s: string, i: int)
    requires 0 <= i < |s|
  {
    s[i] == '@' && (forall k :: 0 <= k < |s| && k != i ==> s[k] != '@')
    && exists j :: i + 1 < j < |s| - 1 && s[j] == '.'
  }

  lemma EmailPatternSpec(s: string)
    ensures EmailPattern(s) <==> EmailShape(s)
  {
    if EmailPattern(s) {
      EmailPatternShape(s);
    }
    if EmailShape(s) {
      EmailShapePattern(s);
    }
  }

  lemma EmailPatternShape(s: string)
    requires EmailPattern(s)
    ensures EmailShape(s)
  {
    var i, j :| 0 < i && i + 1 < j && j + 1 < |s| && s[i] == '@' && s[j] == '.'
      && PlainRun(s[..i]) && PlainRun(s[i + 1..j]) && PlainRun(s[j + 1..]);
    forall k | 0 <= k < |s| && k != i && k != j
      ensures Plain(s[k])
    {
      if k < i { assert s[..i][k] == s[k]; }
      else if k < j { assert s[i + 1..j][k - i - 1] == s[k]; }
      else { assert s[j + 1..][k - j - 1] == s[k]; }
    }
    assert OnlyAtAt(s, i);
  }

  lemma EmailShapePattern(s: string)
    requires EmailShape(s)
    ensures EmailPattern(s)
  {
    var i :| 0 < i < |s| && OnlyAtAt(s, i);
    var j :| i + 1 < j < |s| - 1 && s[j] == '.';
    forall k | 0 <= k < |s| && k != i
      ensures Plain(s[k])
    {
    }
    assert forall k :: 0 <= k < i ==> s[..i][k] == s[k];
    assert forall k :: i + 1 <= k < j ==> s[i + 1..j][k - i - 1] == s[k];
    assert forall k :: j + 1 <= k < |s| ==> s[j + 1..][k - j - 1] == s[k];
    assert PlainRun(s[..i]) && PlainRun(s[i + 1..j]) && PlainRun(s[j + 1..]);
  }

  /** `handleInquiry`'s checks, in their order, then the row with `version || '1.0.0'` and the client address or `unknown`. */
  function ValidateInquiry(body: InquiryBody, ip: Option<string>): Checked<Inquiry>
  {
    if body.kind == "" || body.email == "" || body.content == "" then Rejected(400, "필수 항목이 누락되었습니다.")
    else if !EmailPattern(body.email) then Rejected(400, "올바른 이메일 형식이 아닙니다.")
    else if body.kind !in InquiryTypes then Rejected(400, "올바른 문의 유형이 아닙니다.")
    else if Utf16Length(body.content) < 10 || Utf16Length(body.content) > 2000 then
      Rejected(400, "문의 내용은 10-2000자 사이여야 합니다.")
    else Accepted(Inquiry(body.kind, body.email, body.content,
                          if body.version == "" then "1.0.0" else body.version,
                          if ip.Some? && ip.value != "" then ip.value else "unknown"))
  }

  /**
   * An inquiry is accepted exactly when every check passes, and then it
   * keeps the body's fields; a refusal is a 400 naming the first check that
   * fails, so a missing field is reported before a bad address, a bad
   * address before a bad type, and a bad type before a bad length.
   */
  lemma ValidateInquirySpec(body: InquiryBody, ip: Option<string>)
    ensures var r := ValidateInquiry(body, ip);
      && (r.Accepted? <==>
          body.kind in InquiryTypes && EmailShape(body.email)
          && 10 <= Utf16Length(body.content) <= 2000)
      && (r.Accepted? ==>
          r.value.kind == body.kind && r.value.email == body.email && r.value.content == body.content
          && r.value.version != "" && (body.version != "" ==> r.value.version == body.version)
          && r.value.ip != "")
      && (r.Rejected? ==> r.status == 400)
      && ((body.kind == "" || body.email == "" || body.content == "") ==> r == Rejected(400, "필수 항목이 누락되었습니다."))
      && (body.kind != "" && body.email != "" && body.content != "" && !EmailShape(body.email) ==>
          r == Rejected(400, "올바른 이메일 형식이 아닙니다."))
  {
    EmailPatternSpec(body.email);
  }

  /** `updateInquiry`: a given status must be one of these. */
  const InquiryStatuses: seq<string> := ["pending", "answered", "closed"]

  /** The status and reply `updateInquiry` binds: `status || 'answered'` and `reply || ''`. */
  function ValidateInquiryUpdate(status: string, reply: string): Checked<(string, string)>
  {
    if status != "" && status !in InquiryStatuses then Rejected(400, "올바른 상태가 아닙니다.")
    else Accepted((if status == "" then "answered" else status, reply))
  }

  /** Only an unknown status is refused; an accepted update always stores a known status. */
  lemma ValidateInquiryUpdateSpec(status: string, reply: string)
    ensures var r := ValidateInquiryUpdate(status, reply);
      && (r.Rejected? <==> status != "" && status !in InquiryStatuses)
      && (r.Accepted? ==> r.value.0 in InquiryStatuses && r.value.1 == reply)
      && (status == "" ==> r == Accepted(("answered", reply)))
  {
  }

  /**
   * The body of `POST /api/admin/banners`; text fields are `""` when
   * missing, `images` is the array (`None` when absent) and `interval` the
   * number (`None` when absent).
   */
  datatype BannerBody = BannerBody(name: string, position: string, images: Option<seq<string>>,
                                   linkUrl: string, startDate: string, endDate: string,
                                   transition: string, interval: Option<int>)

  /** The row `createBanner` inserts, nullable columns as `Option`. */
  datatype Banner = Banner(name: string, position: string, images: seq<string>,
                           linkUrl: Option<string>, startDate: Option<string>, endDate: Option<string>,
                           transition: string, interval: int)

  const BannerPositions: seq<string> := ["content-top", "price-bottom", "stats-bottom", "trend-bottom"]

  function OrNull(s: string): Option<string> { if s == "" then None else Some(s) }

  /** `createBanner`'s checks, then the row with its defaults. */
  function ValidateBanner(body: BannerBody): Checked<Banner>
  {
    if body.name == "" || body.position == "" || body.images.None? || |body.images.value| == 0 then
      Rejected(400, "필수 항목이 누락되었습니다.")
    else if body.position !in BannerPositions then Rejected(400, "올바른 위치가 아닙니다.")
    else Accepted(Banner(body.name, body.position, body.images.value,
                         OrNull(body.linkUrl), OrNull(body.startDate), OrNull(body.endDate),
                         if body.transition == "" then "fade" else body.transition,
                         if body.interval.None? || body.interval.value == 0 then 5000 else body.interval.value))
  }

  /**
   * A banner is created exactly for a name, a known position and at least
   * one image; it then slides with `fade` every 5000 ms unless the body says
   * otherwise, and empty optional texts are stored as NULL.
   */
  lemma ValidateBannerSpec(body: BannerBody)
    ensures var r := ValidateBanner(body);
      && (r.Accepted? <==>
          body.name != "" && body.position in BannerPositions && body.images.Some? && |body.images.value| > 0)
      && (r.Rejected? ==> r.status == 400)
      && (r.Accepted? ==>
          && r.value.name == body.name && r.value.position == body.position && r.value.images == body.images.value
          && r.value.transition != "" && r.value.interval != 0
          && (body.transition != "" ==> r.value.transition == body.transition)
          && (body.interval.Some? && body.interval.value != 0 ==> r.value.interval == body.interval.value)
          && (r.value.linkUrl.None? <==> body.linkUrl == ""))
  {
  }

  /** A bound SQL parameter. */
  datatype SqlValue = SqlText(text: string) | SqlInt(n: int) | SqlNull

  /**
   * The body of `PATCH /api/admin/banner/:id`: each field is `None` when
   * `undefined` (a `null` is a defined `SqlNull`); `images` is given as its
   * `JSON.stringify` text and `isActive` as its truthiness.
   */
  datatype BannerPatch = BannerPatch(name: Option<SqlValue>, position: Option<SqlValue>, images: Option<string>,
                                     linkUrl: Option<SqlValue>, startDate: Option<SqlValue>, endDate: Option<SqlValue>,
                                     transition: Option<SqlValue>, interval: Option<SqlValue>, isActive: Option<bool>)

  /** The columns `updateBanner` may set, in the order of its `if`s. */
  const BannerColumns: seq<string> := [
    "name", "position", "images", "link_url", "start_date", "end_date", "transition", "interval", "is_active"]

  /** `JSON.stringify(images)`, already given as text. */
  function ImagesParam(p: BannerPatch): Option<SqlValue>
  {
    if p.images.Some? then Some(SqlText(p.images.value)) else None
  }

  /** `is_active ? 1 : 0`. */
  function ActiveParam(p: BannerPatch): Option<SqlValue>
  {
    if p.isActive.Some? then Some(SqlInt(if p.isActive.value then 1 else 0)) else None
  }

  /** The parameter a defined field binds to its column, `None` for an undefined one. */
  function FieldOf(p: BannerPatch, column: string): Option<SqlValue>
  {
    if column == "name" then p.name
    else if column == "position" then p.position
    else if column == "images" then ImagesParam(p)
    else if column == "link_url" then p.linkUrl
    else if column == "start_date" then p.startDate
    else if column == "end_date" then p.endDate
    else if column == "transition" then p.transition
    else if column == "interval" then p.interval
    else if column == "is_active" then ActiveParam(p)
    else None
  }

  function Present(column: string, v: Option<SqlValue>): (a: seq<(string, SqlValue)>)
    ensures |a| <= 1
  {
    if v.Some? then [(column, v.value)] else []
  }

  /** The (column, parameter) pairs of the defined fields, in column order. */
  function Assignments(p: BannerPatch): seq<(string, SqlValue)>
  {
    Present("name", p.name) + Present("position", p.position) + Present("images", ImagesParam(p))
    + Present("link_url", p.linkUrl) + Present("start_date", p.startDate) + Present("end_date", p.endDate)
    + Present("transition", p.transition) + Present("interval", p.interval) + Present("is_active", ActiveParam(p))
  }

  lemma PresentIn(column: string, x: Option<SqlValue>, c: string, v: SqlValue)
    ensures (c, v) in Present(column, x) <==> c == column && x == Some(v)
  {
  }

  /** A column is assigned exactly when its field is defined, and then with that field's parameter. */
  lemma AssignmentsSpec(p: BannerPatch, c: string, v: SqlValue)
    ensures (c, v) in Assignments(p) <==> c in BannerColumns && FieldOf(p, c) == Some(v)
    ensures |Assignments(p)| <= |BannerColumns|
  {
    PresentIn("name", p.name, c, v);
    PresentIn("position", p.position, c, v);
    PresentIn("images", ImagesParam(p), c, v);
    PresentIn("link_url", p.linkUrl, c, v);
    PresentIn("start_date", p.startDate, c, v);
    PresentIn("end_date", p.endDate, c, v);
    PresentIn("transition", p.transition, c, v);
    PresentIn("interval", p.interval, c, v);
    PresentIn("is_active", ActiveParam(p), c, v);
  }

  function Clauses(a: seq<(string, SqlValue)>): (cs: seq<string>)
    ensures |cs| == |a|
  {
    seq(|a|, k requires 0 <= k < |a| => a[k].0 + " = ?")
  }

  function Values(a: seq<(string, SqlValue)>): (vs: seq<SqlValue>)
    ensures |vs| == |a|
  {
    seq(|a|, k requires 0 <= k < |a| => a[k].1)
  }

  lemma PushStep(a: seq<(string, SqlValue)>, column: string, v: Option<SqlValue>)
    ensures Clauses(a + Present(column, v)) == Clauses(a) + (if v.Some? then [column + " = ?"] else [])
    ensures Values(a + Present(column, v)) == Values(a) + (if v.Some? then [v.value] else [])
  {
    if v.Some? {
      assert (a + Present(column, v))[..|a|] == a;
    } else {
      assert a + Present(column, v) == a;
    }
  }

  /** `updates`: one `column = ?` per assignment, then `updated_at = ?`. */
  function SetClauses(p: BannerPatch): seq<string>
  {
    Clauses(Assignments(p)) + ["updated_at = ?"]
  }

  /** `params`: the assignments' parameters, then the update time and the id. */
  function BoundParams(p: BannerPatch, stamp: string, id: string): seq<SqlValue>
  {
    Values(Assignments(p)) + [SqlText(stamp), SqlText(id)]
  }

  /**
   * One `if (x !== undefined) { updates.push('column = ?'); params.push(x); }`
   * of `updateBanner`: the lists stay those of the assignments so far.
   */
  method PushField(updates: seq<string>, params: seq<SqlValue>, column: string, x: Option<SqlValue>,
                   ghost done: seq<(string, SqlValue)>)
    returns (updates': seq<string>, params': seq<SqlValue>)
    requires updates == Clauses(done) && params == Values(done)
    ensures updates' == Clauses(done + Present(column, x)) && params' == Values(done + Present(column, x))
  {
    PushStep(done, column, x);
    updates', params' := updates, params;
    if x.Some? {
      updates' := updates' + [column + " = ?"];
      params' := params' + [x.value];
    }
  }

  /**
   * `updateBanner`'s SET clause and parameters: a clause per defined field
   * in column order (`images` stringified, `is_active` as 1 or 0), then
   * `updated_at`, then the id for `WHERE id = ?`.
   */
  method BuildBannerUpdate(p: BannerPatch, stamp: string, id: string) returns (updates: seq<string>, params: seq<SqlValue>)
    ensures updates == SetClauses(p) && params == BoundParams(p, stamp, id)
  {
    updates := [];
    params := [];
    ghost var done: seq<(string, SqlValue)> := [];
    updates, params := PushField(updates, params, "name", p.name, done);
    assert [] + Present("name", p.name) == Present("name", p.name);
    done := Present("name", p.name);
    updates, params := PushField(updates, params, "position", p.position, done);
    done := done + Present("position", p.position);
    updates, params := PushField(updates, params, "images", ImagesParam(p), done);
    done := done + Present("images", ImagesParam(p));
    updates, params := PushField(updates, params, "link_url", p.linkUrl, done);
    done := done + Present("link_url", p.linkUrl);
    updates, params := PushField(updates, params, "start_date", p.startDate, done);
    done := done + Present("start_date", p.startDate);
    updates, params := PushField(updates, params, "end_date", p.endDate, done);
    done := done + Present("end_date", p.endDate);
    updates, params := PushField(updates, params, "transition", p.transition, done);
    done := done + Present("transition", p.transition);
    updates, params := PushField(updates, params, "interval", p.interval, done);
    done := done + Present("interval", p.interval);
    updates, params := PushField(updates, params, "is_active", ActiveParam(p), done);
    done := done + Present("is_active", ActiveParam(p));
    assert done == Assignments(p);
    updates := updates + ["updated_at = ?"];
    params := params + [SqlText(stamp), SqlText(id)];
  }

  /**
   * The clause list and the parameter list line up: clause `k` names the
   * column whose parameter is `params[k]`, `updated_at` is always set last,
   * and the id is bound last, for the `WHERE id = ?`.
   */
  lemma {:induction false} BannerUpdateAligned(p: BannerPatch, stamp: string, id: string)
    ensures var updates := SetClauses(p);
      var params := BoundParams(p, stamp, id);
      var a := Assignments(p);
      && |params| == |updates| + 1
      && updates[|updates| - 1] == "updated_at = ?"
      && params[|params| - 2] == SqlText(stamp) && params[|params| - 1] == SqlText(id)
      && forall k :: 0 <= k < |a| ==> updates[k] == a[k].0 + " = ?" && params[k] == a[k].1
  {
    ClausesValuesAt(Assignments(p));
  }

  lemma {:induction false} ClausesValuesAt(a: seq<(string, SqlValue)>)
    ensures forall k :: 0 <= k < |a| ==> Clauses(a)[k] == a[k].0 + " = ?" && Values(a)[k] == a[k].1
  {
    if a != [] {
      ClausesValuesAt(a[..|a| - 1]);
    }
  }

  /** The number of `?` placeholders in a text. */
  function Placeholders(s: string): nat
  {
    if s == [] then 0 else Placeholders(s[..|s| - 1]) + (if s[|s| - 1] == '?' then 1 else 0)
  }

  lemma {:induction false} PlaceholdersAppend(a: string, b: string)
    ensures Placeholders(a + b) == Placeholders(a) + Placeholders(b)
    decreases |b|
  {
    if b == [] {
      assert a + b == a;
    } else {
      PlaceholdersAppend(a, b[..|b| - 1]);
      assert (a + b)[..|a + b| - 1] == a + b[..|b| - 1];
    }
  }

  /** `parts.join(', ')`. */
  function Join(parts: seq<string>): string
  {
    if parts == [] then "" else if |parts| == 1 then parts[0] else Join(parts[..|parts| - 1]) + ", " + parts[|parts| - 1]
  }

  /** `UPDATE banners SET ${updates.join(', ')} WHERE id = ?`. */
  function BannerUpdateSql(p: BannerPatch): string
  {
    "UPDATE banners SET " + Join(SetClauses(p)) + " WHERE id = ?"
  }

  lemma {:induction false} JoinPlaceholders(parts: seq<string>)
    ensures Placeholders(Join(parts)) == if parts == [] then 0 else
      Placeholders(Join(parts[..|parts| - 1])) + Placeholders(parts[|parts| - 1])
  {
    if |parts| > 1 {
      PlaceholdersAppend(Join(parts[..|parts| - 1]) + ", ", parts[|parts| - 1]);
      PlaceholdersAppend(Join(parts[..|parts| - 1]), ", ");
    } else if |parts| == 1 {
      assert parts[..0] == [];
    }
  }

  /** Each clause holds one placeholder, so the joined list holds one per clause. */
  lemma {:induction false} ClausePlaceholders(parts: seq<string>)
    requires forall k :: 0 <= k < |parts| ==> Placeholders(parts[k]) == 1
    ensures Placeholders(Join(parts)) == |parts|
  {
    JoinPlaceholders(parts);
    if parts != [] {
      ClausePlaceholders(parts[..|parts| - 1]);
    }
  }

  /** `column = ?` holds one placeholder when the column name holds none. */
  lemma ClausePlaceholder(column: string)
    requires '?' !in column
    ensures Placeholders(column + " = ?") == 1
  {
    PlaceholdersAppend(column, " = ?");
    NoPlaceholders(column);
    OnePlaceholder(" = ");
    assert " = ?" == " = " + "?";
  }

  lemma {:induction false} NoPlaceholders(s: string)
    requires '?' !in s
    ensures Placeholders(s) == 0
  {
    if s != [] {
      assert s[|s| - 1] in s;
      assert forall k :: 0 <= k < |s| - 1 ==> s[..|s| - 1][k] == s[k];
      NoPlaceholders(s[..|s| - 1]);
    }
  }

  lemma OnePlaceholder(s: string)
    requires '?' !in s
    ensures Placeholders(s + "?") == 1
  {
    NoPlaceholders(s);
    PlaceholdersAppend(s, "?");
  }

  /** No column name holds a `?`. */
  lemma ColumnsPlain(c: string)
    requires c in BannerColumns
    ensures '?' !in c
  {
  }

  /** Each clause of `updates` holds exactly one placeholder. */
  lemma SetClausePlaceholders(p: BannerPatch, k: int)
    requires 0 <= k < |SetClauses(p)|
    ensures Placeholders(SetClauses(p)[k]) == 1
  {
    var a := Assignments(p);
    if k < |a| {
      assert a[k] in a;
      AssignmentsSpec(p, a[k].0, a[k].1);
      ColumnsPlain(a[k].0);
      ClausePlaceholder(a[k].0);
      assert SetClauses(p)[k] == a[k].0 + " = ?";
    } else {
      ClausePlaceholder("updated_at");
      assert SetClauses(p)[k] == "updated_at = ?" == "updated_at" + " = ?";
    }
  }

  /** Every `?` of the statement has its parameter: the statement holds exactly `|params|` placeholders. */
  lemma BannerUpdatePlaceholders(p: BannerPatch, stamp: string, id: string)
    ensures Placeholders(BannerUpdateSql(p)) == |BoundParams(p, stamp, id)|
  {
    var parts := SetClauses(p);
    forall k | 0 <= k < |parts|
      ensures Placeholders(parts[k]) == 1
    {
      SetClausePlaceholders(p, k);
    }
    ClausePlaceholders(parts);
    PlaceholdersAppend("UPDATE banners SET " + Join(parts), " WHERE id = ?");
    PlaceholdersAppend("UPDATE banners SET ", Join(parts));
    SqlFrame();
  }

  /** The fixed text around the SET list: no placeholder before it, the id's after it. */
  lemma SqlFrame()
    ensures Placeholders("UPDATE banners SET ") == 0 && Placeholders(" WHERE id = ?") == 1
  {
    OnePlaceholder(" WHERE id = ");
    assert " WHERE id = ?" == " WHERE id = " + "?";
    NoPlaceholders("UPDATE banners SET ");
  }
}
