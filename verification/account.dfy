/**
 * `build_basic_info`: unwraps the account-overview response (`pick`) and
 * reads the balance and the two activity timestamps from it, using
 * Python's truthiness for the `a or b` fallbacks.
 */
module Account {
  import opened Records

  /** A decoded JSON value (floating-point numbers are not modelled). */
  datatype Json =
    | JNull
    | JBool(b: bool)
    | JInt(i: int)
    | JStr(s: string)
    | JArr(elems: seq<Json>)
    | JObj(fields: map<string, Json>)

  /** Python's `bool(x)` on a decoded JSON value. */
  predicate JsonTruthy(x: Json) {
    match x
    case JNull => false
    case JBool(b) => b
    case JInt(i) => i != 0
    case JStr(s) => s != []
    case JArr(elems) => elems != []
    case JObj(fields) => fields != map[]
  }

  /** `d.get(k)` on an object, `None` (here `JNull`) when the key is missing. */
  function Get(fields: map<string, Json>, k: string): Json {
    if k in fields then fields[k] else JNull
  }

  /** `a or b` */
  function Or(a: Json, b: Json): (r: Json)
    ensures JsonTruthy(a) ==> r == a
    ensures !JsonTruthy(a) ==> r == b
  {
    if JsonTruthy(a) then a else b
  }

  /** `pick(tron_account or {})`: the payload of a `{"data": ...}` envelope, or the object itself. */
  function Pick(account: Json): Json {
    var d := if JsonTruthy(account) then account else JObj(map[]);
    if !d.JObj? then JObj(map[])
    else if "data" in d.fields && d.fields["data"].JObj? then d.fields["data"]
    else if "data" in d.fields && d.fields["data"].JArr? && d.fields["data"].elems != [] then d.fields["data"].elems[0]
    else d
  }

  /**
   * The fields `build_basic_info` reads: the raw balance, and the creation and
   * last-operation timestamps handed to the time formatter (`JNull` when the
   * source leaves them `None`).
   */
  datatype AccountInfo = AccountInfo(balanceRaw: Json, createdAt: Json, lastOperationAt: Json)

  /** `obj.get("create_time") or obj.get("createTime")` */
  function CreateTs(fields: map<string, Json>): Json {
    Or(Get(fields, "create_time"), Get(fields, "createTime"))
  }

  /** `obj.get("latest_opration_time") or obj.get("latest_operation_time")` */
  function LastOpTs(fields: map<string, Json>): Json {
    Or(Get(fields, "latest_opration_time"), Get(fields, "latest_operation_time"))
  }

  /**
   * `fmt_time(ts) if ts else None` raises: on a truthy string, list or object
   * `ms / 1000` is a type error, and an integer outside the years `datetime`
   * spans makes the conversion fail. `True` counts as 1 ms.
   */
  predicate FmtTimeRaises(ts: Json) {
    match ts
    case JNull => false
    case JBool(_) => false
    case JInt(i) => i != 0 && !Formattable(i)
    case JStr(str) => str != []
    case JArr(elems) => elems != []
    case JObj(fields) => fields != map[]
  }

  /**
   * `build_basic_info(acct)`; `None` when it raises: the unwrapped payload is
   * not an object (so `.get` fails), or a timestamp it formats cannot be
   * formatted.
   */
  function BuildBasicInfo(account: Json): (r: Option<AccountInfo>)
    ensures r.None? <==>
      || !Pick(account).JObj?
      || FmtTimeRaises(CreateTs(Pick(account).fields))
      || FmtTimeRaises(LastOpTs(Pick(account).fields))
    ensures r.Some? ==> !r.value.createdAt.JNull? ==> JsonTruthy(r.value.createdAt) && !FmtTimeRaises(r.value.createdAt)
    ensures r.Some? ==> !r.value.lastOperationAt.JNull? ==> JsonTruthy(r.value.lastOperationAt) && !FmtTimeRaises(r.value.lastOperationAt)
  {
    var obj := Pick(account);
    if !obj.JObj? then None
    else
      var createTs := CreateTs(obj.fields);
      var lastOpTs := LastOpTs(obj.fields);
      if FmtTimeRaises(createTs) || FmtTimeRaises(lastOpTs) then None
      else
        Some(AccountInfo(
          Get(obj.fields, "balance"),
          if JsonTruthy(createTs) then createTs else JNull,
          if JsonTruthy(lastOpTs) then lastOpTs else JNull))
  }

  /** An object without a `"data"` key is already the payload. */
  lemma PlainObjectIsKept(fields: map<string, Json>)
    requires "data" !in fields
    ensures Pick(JObj(fields)) == JObj(fields)
  {
  }

  /** Wrapping a payload object in `{"data": ...}` and unwrapping it gives it back. */
  lemma UnwrapObject(payload: map<string, Json>, extra: map<string, Json>)
    ensures Pick(JObj(extra["data" := JObj(payload)])) == JObj(payload)
  {
  }

  /** Wrapping a payload in a non-empty `{"data": [...]}` list and unwrapping it gives the first element. */
  lemma UnwrapList(payload: Json, rest: seq<Json>, extra: map<string, Json>)
    ensures Pick(JObj(extra["data" := JArr([payload] + rest)])) == payload
  {
  }

  /** A `"data"` entry that is neither an object nor a non-empty list leaves the envelope as it is. */
  lemma OtherDataIsKept(fields: map<string, Json>)
    requires "data" in fields && !fields["data"].JObj? && !(fields["data"].JArr? && fields["data"].elems != [])
    ensures Pick(JObj(fields)) == JObj(fields)
  {
  }

  /**
   * The timestamps prefer `create_time` over `createTime` (and the misspelt
   * `latest_opration_time` over `latest_operation_time`) whenever it is truthy,
   * and a falsy pair gives no timestamp. A plain object yields its fields
   * exactly when both timestamps can be formatted.
   */
  lemma TimestampFallbacks(fields: map<string, Json>)
    requires "data" !in fields
    ensures JsonTruthy(Get(fields, "create_time")) ==> CreateTs(fields) == fields["create_time"]
    ensures !JsonTruthy(Get(fields, "create_time")) ==> CreateTs(fields) == Get(fields, "createTime")
    ensures JsonTruthy(Get(fields, "latest_opration_time")) ==> LastOpTs(fields) == fields["latest_opration_time"]
    ensures !JsonTruthy(Get(fields, "latest_opration_time")) ==> LastOpTs(fields) == Get(fields, "latest_operation_time")
    ensures var info := BuildBasicInfo(JObj(fields));
      && (info.Some? <==> !FmtTimeRaises(CreateTs(fields)) && !FmtTimeRaises(LastOpTs(fields)))
      && (info.Some? ==>
            && info.value.balanceRaw == Get(fields, "balance")
            && info.value.createdAt == (if JsonTruthy(CreateTs(fields)) then CreateTs(fields) else JNull)
            && info.value.lastOperationAt == (if JsonTruthy(LastOpTs(fields)) then LastOpTs(fields) else JNull))
  {
    PlainObjectIsKept(fields);
  }

  /** A creation time given as a non-empty string makes `build_basic_info` raise. */
  lemma StringTimestampFails(str: string)
    requires str != []
    ensures BuildBasicInfo(JObj(map["create_time" := JStr(str)])).None?
  {
    var fields := map["create_time" := JStr(str)];
    PlainObjectIsKept(fields);
    assert CreateTs(fields) == JStr(str);
  }

  /** A last-operation time past the year 9999 makes `build_basic_info` raise; one within range does not. */
  lemma OutOfRangeTimestampFails(ms: int)
    requires ms != 0
    ensures BuildBasicInfo(JObj(map["latest_opration_time" := JInt(ms)])).None? <==> !Formattable(ms)
  {
    var fields := map["latest_opration_time" := JInt(ms)];
    PlainObjectIsKept(fields);
    assert LastOpTs(fields) == JInt(ms);
    assert CreateTs(fields) == JNull;
  }

  /** A first list element that is not an object makes `build_basic_info` raise. */
  lemma NonObjectListHeadFails(head: Json, rest: seq<Json>)
    requires !head.JObj?
    ensures BuildBasicInfo(JObj(map["data" := JArr([head] + rest)])).None?
  {
    UnwrapList(head, rest, map[]);
  }
}
