/**
 * The admin audit trail: the row written to `activity_logs`, the client address
 * recorded with it, the once-per-request logging wrapper around admin routes and the
 * paginated query that reads the trail back.
 */
module ActivityLogger {
  import opened JsValues
  import opened Strings
  import opened Express

  // ---------------------------------------------------------------------------------------------
  // logActivity: the INSERT and its parameter row
  // ---------------------------------------------------------------------------------------------

  /** The `data` object handed to `logActivity`. */
  datatype ActivityData = ActivityData(
    adminId: Value, adminName: Value, adminEmail: Value, actionType: Value,
    description: Value, targetType: Value, targetId: Value, ipAddress: Value)

  /** The columns the INSERT names, in the order of its parameter array. */
  const ActivityColumns: seq<string> := [
    "admin_id", "admin_name", "admin_email", "action_type", "action_description",
    "target_type", "target_id", "ip_address", "created_at"]

  /** `n` comma-separated placeholders, as in `VALUES (?, ?, ...)`. */
  function Placeholders(n: nat): string
  {
    if n == 0 then "" else if n == 1 then "?" else "?" + ", " + Placeholders(n - 1)
  }

  lemma {:induction false} PlaceholdersCount(n: nat)
    ensures Count(Placeholders(n), '?') == n
  {
    if n == 1 {
      CountOne("", "", '?');
      assert Placeholders(1) == "" + ['?'] + "";
    } else if n > 1 {
      PlaceholdersCount(n - 1);
      CountOne("", "", '?');
      assert "?" == "" + ['?'] + "";
      assert '?' !in ", ";
      CountAbsent(", ", '?');
      CountAppend("?", ", ", '?');
      CountAppend("?" + ", ", Placeholders(n - 1), '?');
    }
  }

  /**
   * The parameter array of the INSERT. The three optional columns store `null` for any falsy value
   * (`|| null`); the timestamp is the time of the call, passed in.
   */
  function InsertParams(d: ActivityData, now: string): (r: seq<Value>)
    ensures |r| == |ActivityColumns|
    ensures r[..5] == [d.adminId, d.adminName, d.adminEmail, d.actionType, d.description]
    ensures Truthy(d.targetType) ==> r[5] == d.targetType
    ensures !Truthy(d.targetType) ==> r[5] == Null
    ensures Truthy(d.targetId) ==> r[6] == d.targetId
    ensures !Truthy(d.targetId) ==> r[6] == Null
    ensures Truthy(d.ipAddress) ==> r[7] == d.ipAddress
    ensures !Truthy(d.ipAddress) ==> r[7] == Null
    ensures r[8] == Str(now)
  {
    [d.adminId, d.adminName, d.adminEmail, d.actionType, d.description,
     Or(d.targetType, Null), Or(d.targetId, Null), Or(d.ipAddress, Null), Str(now)]
  }

  /** better-sqlite3 binds numbers, strings and null (`undefined` as null); a boolean makes `run` throw. */
  predicate Bindable(v: Value)
  {
    !v.Bool?
  }

  predicate AllBindable(params: seq<Value>)
  {
    forall k | 0 <= k < |params| :: Bindable(params[k])
  }

  /** A truthy boolean target id (`res.json({ id: true })`) is bound as it is, so the INSERT rejects. */
  lemma BooleanIdUnbindable(d: ActivityData, now: string)
    requires d.targetId == Bool(true)
    ensures !AllBindable(InsertParams(d, now))
  {
    assert !Bindable(InsertParams(d, now)[6]);
  }

  /** `VALUES (?, ?, ...)` with one placeholder per column has one per value of the parameter array. */
  lemma InsertInStep(d: ActivityData, now: string)
    ensures Count(Placeholders(|ActivityColumns|), '?') == |InsertParams(d, now)|
  {
    PlaceholdersCount(|ActivityColumns|);
  }

  // ---------------------------------------------------------------------------------------------
  // getClientIP
  // ---------------------------------------------------------------------------------------------

  /** `x-forwarded-for?.split(',')[0].trim()`: the first hop of the header, or `undefined` without one. */
  function ForwardedFor(xff: Option<string>): Value
  {
    match xff
    case None => Undefined
    case Some(_) => Str(FirstHop(xff))
  }

  /**
   * The address recorded for a request: the first hop of `x-forwarded-for`, then `x-real-ip`, then the
   * connection's and the socket's remote address, each taken only when non-empty, else "unknown".
   */
  function ClientIp(xff: Option<string>, realIp: Option<string>, connAddr: Option<string>, sockAddr: Option<string>): (r: string)
    ensures r != ""
    ensures FirstHop(xff) != "" ==> r == FirstHop(xff)
  {
    ToText(Or(Or(Or(Or(ForwardedFor(xff), FromOption(realIp)), FromOption(connAddr)), FromOption(sockAddr)), Str("unknown")))
  }

  /** The trimmed first comma-separated entry of `x-forwarded-for`, empty without the header. */
  function FirstHop(xff: Option<string>): string
  {
    match xff
    case None => ""
    case Some(h) => Trim(BeforeFirst(h, ','))
  }

  /** A string-valued operand, with the empty string standing for an absent one. */
  function OrEmpty(o: Option<string>): string
  {
    match o
    case None => ""
    case Some(s) => s
  }

  /** Reference fallback chain: the first non-empty candidate, or "unknown" when all are empty. */
  function FirstNonEmpty(candidates: seq<string>): (r: string)
    ensures r != ""
  {
    if candidates == [] then "unknown"
    else if candidates[0] != "" then candidates[0]
    else FirstNonEmpty(candidates[1..])
  }

  /** A header or address operand: a string, or `undefined` when absent. */
  predicate IsOperand(v: Value)
  {
    v.Undefined? || v.Str?
  }

  /** The text of an operand, the empty string for `undefined`. */
  function OperandText(v: Value): string
  {
    if v.Str? then v.s else ""
  }

  /** `a || b || c || d || 'unknown'` over operands picks the first non-empty one. */
  lemma OrChainIsFirstNonEmpty(a: Value, b: Value, c: Value, d: Value)
    requires IsOperand(a) && IsOperand(b) && IsOperand(c) && IsOperand(d)
    ensures ToText(Or(Or(Or(Or(a, b), c), d), Str("unknown")))
      == FirstNonEmpty([OperandText(a), OperandText(b), OperandText(c), OperandText(d)])
  {
    var cs := [OperandText(a), OperandText(b), OperandText(c), OperandText(d)];
    assert cs[1..][1..][1..][1..] == [];
    assert FirstNonEmpty(cs[1..][1..][1..]) == if cs[3] != "" then cs[3] else "unknown";
    assert FirstNonEmpty(cs[1..][1..]) == if cs[2] != "" then cs[2] else FirstNonEmpty(cs[1..][1..][1..]);
    assert FirstNonEmpty(cs[1..]) == if cs[1] != "" then cs[1] else FirstNonEmpty(cs[1..][1..]);
  }

  /** `getClientIP` is exactly the fallback chain over its four sources in order. */
  lemma ClientIpIsFallbackChain(xff: Option<string>, realIp: Option<string>, connAddr: Option<string>, sockAddr: Option<string>)
    ensures ClientIp(xff, realIp, connAddr, sockAddr)
      == FirstNonEmpty([FirstHop(xff), OrEmpty(realIp), OrEmpty(connAddr), OrEmpty(sockAddr)])
  {
    OrChainIsFirstNonEmpty(ForwardedFor(xff), FromOption(realIp), FromOption(connAddr), FromOption(sockAddr));
  }

  // ---------------------------------------------------------------------------------------------
  // logAdminAction: description, target id and the once-per-request guard
  // ---------------------------------------------------------------------------------------------

  /** An entry of the description table: fixed text, or text followed by `#${targetId}`. */
  datatype Entry = Fixed(text: string) | Targeted(prefix: string)

  /** `actionDescriptions`: the 17 listed action types and their entries. */
  function Table(actionType: string): (r: Option<Entry>)
    ensures r.Some? && r.value.Fixed? ==> r.value.text != ""
    ensures r.Some? ==> actionType != [] && 'A' <= actionType[0] <= 'Z'
  {
    if actionType == "CREATE_LISTING" then Some(Fixed("Created new listing"))
    else if actionType == "UPDATE_LISTING" then Some(Targeted("Updated listing "))
    else if actionType == "DELETE_LISTING" then Some(Targeted("Deleted listing "))
    else if actionType == "CREATE_BOOKING" then Some(Fixed("Created booking"))
    else if actionType == "UPDATE_BOOKING" then Some(Targeted("Updated booking "))
    else if actionType == "DELETE_BOOKING" then Some(Targeted("Deleted booking "))
    else if actionType == "APPROVE_BOOKING" then Some(Targeted("Approved booking "))
    else if actionType == "DENY_BOOKING" then Some(Targeted("Denied booking "))
    else if actionType == "CREATE_FILTER" then Some(Fixed("Created filter service"))
    else if actionType == "UPDATE_FILTER" then Some(Targeted("Updated filter service "))
    else if actionType == "DELETE_FILTER" then Some(Targeted("Deleted filter service "))
    else if actionType == "CREATE_ADMIN" then Some(Fixed("Created new admin user"))
    else if actionType == "UPDATE_ADMIN" then Some(Targeted("Updated admin user "))
    else if actionType == "DEACTIVATE_ADMIN" then Some(Targeted("Deactivated admin user "))
    else if actionType == "DELETE_CONTACT" then Some(Targeted("Deleted contact message "))
    else if actionType == "REPLY_CONTACT" then Some(Targeted("Replied to contact message "))
    else if actionType == "LOGIN" then Some(Fixed("Logged in to admin panel"))
    else None
  }

  /**
   * The names every object literal inherits from `Object.prototype`. Looking one of them up in the
   * description table finds a method (for `__proto__`, the prototype object), not a string.
   */
  const InheritedNames: set<string> := {
    "constructor", "hasOwnProperty", "isPrototypeOf", "propertyIsEnumerable", "toLocaleString",
    "toString", "valueOf", "__proto__", "__defineGetter__", "__defineSetter__",
    "__lookupGetter__", "__lookupSetter__"}

  /** What `actionDescriptions[actionType]` finds: an own entry's text, an inherited member, or `undefined`. */
  datatype Lookup = Own(text: string) | Inherited | Missing

  function TableEntry(actionType: string, targetId: Value): Lookup
  {
    match Table(actionType)
    case Some(Fixed(text)) => Own(text)
    case Some(Targeted(prefix)) => Own(prefix + "#" + ToText(targetId))
    case None => if actionType in InheritedNames then Inherited else Missing
  }

  /**
   * `actionDescriptions[actionType] || `${actionType} on ${targetType}``, when that is a string.
   * An inherited member is truthy, so `||` keeps it, and the INSERT cannot bind a function or an
   * object: there is then no description to store (`None`).
   */
  function Describe(actionType: string, targetType: Value, targetId: Value): (r: Option<string>)
    ensures r.None? <==> Table(actionType).None? && actionType in InheritedNames
    ensures r.Some? ==> r.value != ""
  {
    var fallback := Str(actionType + " on " + ToText(targetType));
    match TableEntry(actionType, targetId)
    case Own(text) => Some(ToText(Or(Str(text), fallback)))
    case Inherited => None
    case Missing => Some(ToText(Or(Undefined, fallback)))
  }

  /** A listed fixed-text action takes its table text: every entry is non-empty, so `||` never falls through. */
  lemma DescribeFixed(actionType: string, targetType: Value, targetId: Value)
    requires Table(actionType).Some? && Table(actionType).value.Fixed?
    ensures Describe(actionType, targetType, targetId) == Some(Table(actionType).value.text)
  {
  }

  /** An id-bearing action reads its table text, then `#` and the target id as a template literal prints it. */
  lemma DescribeTargeted(actionType: string, targetType: Value, targetId: Value)
    requires Table(actionType).Some? && Table(actionType).value.Targeted?
    ensures Describe(actionType, targetType, targetId) == Some(Table(actionType).value.prefix + "#" + ToText(targetId))
    ensures EndsWith(Describe(actionType, targetType, targetId).value, "#" + ToText(targetId))
  {
    var p := Table(actionType).value.prefix;
    assert p + "#" + ToText(targetId) == p + ("#" + ToText(targetId));
  }

  /** An action that is neither listed nor inherited reads "<action> on <target type>". */
  lemma DescribeUnlisted(actionType: string, targetType: Value, targetId: Value)
    requires Table(actionType).None? && actionType !in InheritedNames
    ensures Describe(actionType, targetType, targetId) == Some(actionType + " on " + ToText(targetType))
  {
  }

  /** The inherited names start with a lower-case letter or an underscore. */
  lemma InheritedUncapitalised(actionType: string)
    requires actionType in InheritedNames
    ensures actionType != [] && !('A' <= actionType[0] <= 'Z')
  {
  }

  /** None of the inherited names is a listed action, so each of them leaves nothing to store. */
  lemma DescribeInherited(actionType: string, targetType: Value, targetId: Value)
    requires actionType in InheritedNames
    ensures Describe(actionType, targetType, targetId) == None
  {
    InheritedUncapitalised(actionType);
  }

  /** `targetId || req.params.id || null`: never a falsy value other than `null`. */
  function ResolveTargetId(targetId: Value, paramsId: Value): (r: Value)
    ensures r == Null || Truthy(r)
    ensures Truthy(targetId) ==> r == targetId
    ensures !Truthy(targetId) && Truthy(paramsId) ==> r == paramsId
    ensures !Truthy(targetId) && !Truthy(paramsId) ==> r == Null
  {
    Or(Or(targetId, paramsId), Null)
  }

  /** A JavaScript default parameter (`targetId = null`): it replaces only `undefined`. */
  function DefaultTo(v: Value, d: Value): (r: Value)
    ensures v != Undefined ==> r == v
    ensures v == Undefined ==> r == d
  {
    if v.Undefined? then d else v
  }

  /** The body a route hands to `res.json`, as far as the wrapper reads it (`data?.id`, `data?.insertedId`). */
  datatype JsonBody = JsonBody(id: Value, insertedId: Value)

  /** The id the `res.json` wrapper passes on: `data?.id || data?.insertedId`, then the `= null` default. */
  function JsonTargetId(data: Option<JsonBody>): (r: Value)
    ensures r != Undefined
    ensures data.Some? && Truthy(data.value.id) ==> r == data.value.id
    ensures data.None? ==> r == Null
  {
    match data
    case None => DefaultTo(Undefined, Null)
    case Some(b) => DefaultTo(Or(b.id, b.insertedId), Null)
  }

  /** The session may be logged: a truthy `userId` and the role exactly "admin". */
  predicate MayLog(session: Session)
    reads session
  {
    Truthy(session.userId) && session.role == Str("admin")
  }

  /**
   * One admin request wrapped by `logAdminAction(actionType, targetType)`. `written` holds the
   * parameter arrays handed to the `activity_logs` INSERT during this request.
   */
  class AuditedRequest {
    const session: Session
    const actionType: string
    const targetType: Value
    const paramsId: Value     // req.params.id
    const clientIp: string    // getClientIP(req); the headers do not change within a request
    var logged: bool
    var written: seq<seq<Value>>

    /** At most one row per request, and none before the flag is set. */
    predicate Valid()
      reads this
    {
      |written| <= 1 && (|written| == 1 ==> logged)
    }

    /** The parameter array `logActivity(targetId)` hands to the INSERT, when there is a description to put in it. */
    function Params(targetId: Value, now: string): (r: Option<seq<Value>>)
      reads this, session
      ensures r.None? <==> Table(actionType).None? && actionType in InheritedNames
    {
      match Describe(actionType, targetType, targetId)
      case None => None
      case Some(description) =>
        Some(InsertParams(ActivityData(
          session.userId, session.userName, session.userEmail, Str(actionType),
          Str(description), targetType,
          ResolveTargetId(targetId, paramsId), Str(clientIp)), now))
    }

    /**
     * The rows `logActivity(targetId)` writes for the session as it now stands: its one row, or none
     * when the INSERT rejects (no description to bind, or a boolean value) and the catch swallows it.
     */
    function Rows(targetId: Value, now: string): (r: seq<seq<Value>>)
      reads this, session
      ensures |r| <= 1
      ensures |r| == 1 <==> Params(targetId, now).Some? && AllBindable(Params(targetId, now).value)
      ensures |r| == 1 ==> r[0] == Params(targetId, now).value
    {
      match Params(targetId, now)
      case None => []
      case Some(params) => if AllBindable(params) then [params] else []
    }

    /** The middleware runs: the flag starts clear and nothing is written yet. */
    constructor (session: Session, actionType: string, targetType: Value, paramsId: Value, clientIp: string)
      ensures this.session == session && this.actionType == actionType && this.targetType == targetType
      ensures this.paramsId == paramsId && this.clientIp == clientIp
      ensures !logged && written == []
      ensures Valid()
    {
      this.session := session;
      this.actionType := actionType;
      this.targetType := targetType;
      this.paramsId := paramsId;
      this.clientIp := clientIp;
      logged := false;
      written := [];
    }

    /** The inner `logActivity`: nothing once logged or for a non-admin session, else one row. */
    method LogOnce(targetId: Value, now: string)
      requires Valid()
      modifies this`logged, this`written
      ensures Valid()
      ensures old(logged) || !MayLog(session) ==> logged == old(logged) && written == old(written)
      ensures !old(logged) && MayLog(session) ==> logged && written == Rows(targetId, now)
      ensures !old(logged) && MayLog(session) ==>
        (|written| == 1 <==> Params(targetId, now).Some? && AllBindable(Params(targetId, now).value))
    {
      if logged || !Truthy(session.userId) || session.role != Str("admin") {
        return;
      }
      logged := true;
      written := written + Rows(targetId, now);
    }

    /** `res.json(data)`: logs with the body's id, or `null` when it has none. */
    method Json(data: Option<JsonBody>, now: string)
      requires Valid()
      modifies this`logged, this`written
      ensures Valid()
      ensures old(logged) || !MayLog(session) ==> logged == old(logged) && written == old(written)
      ensures !old(logged) && MayLog(session) ==> logged && written == Rows(JsonTargetId(data), now)
    {
      LogOnce(JsonTargetId(data), now);
    }

    /** `res.send(body)`: logs with no id, so the target id falls back to `req.params.id`. */
    method Send(now: string)
      requires Valid()
      modifies this`logged, this`written
      ensures Valid()
      ensures old(logged) || !MayLog(session) ==> logged == old(logged) && written == old(written)
      ensures !old(logged) && MayLog(session) ==> logged && written == Rows(Null, now)
    {
      LogOnce(Null, now);
    }

    /** `res.redirect(url)`: logs exactly like `res.send`. */
    method Redirect(now: string)
      requires Valid()
      modifies this`logged, this`written
      ensures Valid()
      ensures old(logged) || !MayLog(session) ==> logged == old(logged) && written == old(written)
      ensures !old(logged) && MayLog(session) ==> logged && written == Rows(Null, now)
    {
      LogOnce(Null, now);
    }
  }

  /**
   * Through `send` or `redirect` the description of an id-bearing action reads "#null", while the
   * stored target id still falls back to `req.params.id`.
   */
  lemma SendDescribesNull(actionType: string, targetType: Value, paramsId: Value)
    requires Table(actionType).Some? && Table(actionType).value.Targeted?
    ensures Describe(actionType, targetType, Null).Some?
    ensures EndsWith(Describe(actionType, targetType, Null).value, "#null")
    ensures Truthy(paramsId) ==> ResolveTargetId(Null, paramsId) == paramsId
  {
    DescribeTargeted(actionType, targetType, Null);
  }

  // ---------------------------------------------------------------------------------------------
  // getActivityLogs
  // ---------------------------------------------------------------------------------------------

  const SelectLogs := "SELECT * " + "FROM activity_logs"
  const ByAdmin := " WHERE admin_id = " + "?"
  const Page := " ORDER BY created_at DESC " + "LIMIT " + "?" + " OFFSET " + "?"

  lemma SelectLogsFree()
    ensures Count(SelectLogs, '?') == 0
  {
    assert '?' !in SelectLogs;
    CountAbsent(SelectLogs, '?');
  }

  lemma ByAdminOne()
    ensures Count(ByAdmin, '?') == 1
  {
    CountOne(" WHERE admin_id = ", "", '?');
    assert ByAdmin == " WHERE admin_id = " + ['?'] + "";
  }

  lemma PageTwo()
    ensures Count(Page, '?') == 2
  {
    CountTwo(" ORDER BY created_at DESC LIMIT ", " OFFSET ", "", '?');
    assert Page == " ORDER BY created_at DESC LIMIT " + ['?'] + " OFFSET " + ['?'] + "";
  }

  /**
   * The query `getActivityLogs` runs. `limit` and `offset` default to 100 and 0 when undefined; the
   * admin filter is added only for a truthy `admin_id`; the placeholders match the values one for one.
   */
  method ActivityLogsQuery(adminId: Value, limit: Value, offset: Value) returns (query: string, params: seq<Value>)
    ensures query == SelectLogs + (if Truthy(adminId) then ByAdmin else "") + Page
    ensures params == (if Truthy(adminId) then [adminId] else []) + [DefaultTo(limit, Num(100)), DefaultTo(offset, Num(0))]
    ensures Count(query, '?') == |params|
  {
    var lim := DefaultTo(limit, Num(100));
    var off := DefaultTo(offset, Num(0));
    SelectLogsFree();
    ByAdminOne();
    PageTwo();
    query := SelectLogs;
    params := [];
    if Truthy(adminId) {
      CountAppend(query, ByAdmin, '?');
      query := query + ByAdmin;
      params := params + [adminId];
    }
    CountAppend(query, Page, '?');
    query := query + Page;
    params := params + [lim, off];
  }
}
