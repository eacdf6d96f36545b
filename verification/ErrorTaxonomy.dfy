/** The device error taxonomy: per-protocol tables of error classes with a fallback table. */
module ErrorTaxonomy {
  import opened Outcomes

  datatype DeviceErrorClass = Transient | Permanent | Safety | Auth | Unclassified

  datatype Classification = Classification(kind: DeviceErrorClass, code: string, retryable: bool, safeStateRequired: bool)

  /** protocol -> raw code -> class; '*' is the fallback table. */
  type Tables = map<string, map<string, DeviceErrorClass>>

  const FALLBACK := "*"

  /** A raw error: a number or a string, an object's `errorCode` and `code`, or anything else. */
  datatype Raw = NumberCode(text: string) | StringCode(s: string) | ErrorObject(errorCode: Option<string>, code: Option<string>) | Other

  function NormalizeRaw(raw: Raw): string {
    match raw
    case NumberCode(text) => text
    case StringCode(s) => s
    case ErrorObject(Some(errorCode), _) => errorCode
    case ErrorObject(None, Some(code)) => code
    case _ => "unknown"
  }

  const MODBUS_EXCEPTIONS: map<string, DeviceErrorClass> :=
    map["1" := Permanent, "2" := Permanent, "3" := Permanent, "4" := Transient, "5" := Transient, "6" := Transient,
        "8" := Permanent, "10" := Transient, "11" := Transient]

  const OPCUA_STATUS: map<string, DeviceErrorClass> :=
    map["BadTimeout" := Transient, "BadServerNotConnected" := Transient, "BadConnectionClosed" := Transient,
        "BadServerHalted" := Transient, "BadResourceUnavailable" := Transient, "BadNodeIdUnknown" := Permanent,
        "BadAttributeIdInvalid" := Permanent, "BadTypeMismatch" := Permanent, "BadUserAccessDenied" := Auth,
        "BadSecurityChecksFailed" := Auth, "BadIdentityTokenInvalid" := Auth, "BadIdentityTokenRejected" := Auth,
        "BadOutOfService" := Safety, "BadDeviceFailure" := Safety]

  const GENERIC: map<string, DeviceErrorClass> :=
    map["EXECUTION_TIMEOUT" := Transient, "TRANSPORT_ERROR" := Transient, "ECONNRESET" := Transient, "ETIMEDOUT" := Transient,
        "ECONNREFUSED" := Transient, "EXECUTION_FAILED" := Permanent, "EXECUTION_ERROR" := Unclassified,
        "NOT_ATTEMPTED" := Unclassified, "SAFETY_TRIP" := Safety]

  function DefaultFlags(kind: DeviceErrorClass): (bool, bool) {
    match kind
    case Transient => (true, false)
    case Safety => (false, true)
    case _ => (false, false)
  }

  function Put(tables: Tables, protocol: string, code: string, kind: DeviceErrorClass): Tables {
    tables[protocol := Coalesce(Lookup(tables, protocol), map[])[code := kind]]
  }

  function Direct(tables: Tables, protocol: string, code: string): Option<DeviceErrorClass> {
    if protocol in tables then Lookup(tables[protocol], code) else None
  }

  /** An absent or empty protocol has no table of its own. */
  function Find(tables: Tables, protocol: Option<string>, code: string): Option<DeviceErrorClass> {
    var direct := if protocol.Some? && protocol.value != "" then Direct(tables, protocol.value, code) else None;
    if direct.Some? then direct else Direct(tables, FALLBACK, code)
  }

  function UpperChar(c: char): char { if 'a' <= c <= 'z' then 'A' + (c - 'a') else c }

  function Upper(s: string): string { seq(|s|, i requires 0 <= i < |s| => UpperChar(s[i])) }

  function Classify(tables: Tables, protocol: Option<string>, raw: Raw): Classification {
    var code := NormalizeRaw(raw);
    var kind := Coalesce(Find(tables, protocol, code), Unclassified);
    var flags := DefaultFlags(kind);
    var qualified := if protocol.Some? && protocol.value != "" then Upper(protocol.value) + ":" + code else code;
    Classification(kind, qualified, flags.0, flags.1)
  }

  class DeviceErrorTaxonomy {
    var tables: Tables

    constructor ()
      ensures tables == map["modbus" := MODBUS_EXCEPTIONS, "opcua" := OPCUA_STATUS, FALLBACK := GENERIC]
    {
      tables := map[];
      new;
      assert "1" in MODBUS_EXCEPTIONS && "BadTimeout" in OPCUA_STATUS && "SAFETY_TRIP" in GENERIC;
      hide MODBUS_EXCEPTIONS, OPCUA_STATUS, GENERIC;
      PutAll("modbus", MODBUS_EXCEPTIONS);
      PutAll("opcua", OPCUA_STATUS);
      PutAll(FALLBACK, GENERIC);
    }

    /** One of the loops that fill a table from the entries of a constant. */
    method PutAll(protocol: string, entries: map<string, DeviceErrorClass>)
      requires protocol !in tables && entries != map[]
      modifies this
      ensures tables == old(tables)[protocol := entries]
    {
      var left := entries.Keys;
      while left != {}
        invariant left <= entries.Keys
        invariant forall p | p != protocol :: Lookup(tables, p) == Lookup(old(tables), p)
        invariant forall c :: Direct(tables, protocol, c) == if c in left then None else Lookup(entries, c)
      {
        var code :| code in left;
        tables := Put(tables, protocol, code, entries[code]);
        left := left - {code};
      }
      var some :| some in entries;
      assert Direct(tables, protocol, some).Some?;
      TableHolds(tables, old(tables), protocol, entries);
    }

    method Register(protocol: string, rawCode: string, kind: DeviceErrorClass)
      modifies this
      ensures tables == Put(old(tables), protocol, rawCode, kind)
    {
      if protocol !in tables { tables := tables[protocol := map[]]; }
      tables := tables[protocol := tables[protocol][rawCode := kind]];
    }
  }

  lemma TableHolds(tables: Tables, before: Tables, protocol: string, entries: map<string, DeviceErrorClass>)
    requires protocol in tables
    requires forall p | p != protocol :: Lookup(tables, p) == Lookup(before, p)
    requires forall c :: Direct(tables, protocol, c) == Lookup(entries, c)
    ensures tables == before[protocol := entries]
  {
    forall c ensures Lookup(tables[protocol], c) == Lookup(entries, c) {
      assert Direct(tables, protocol, c) == Lookup(entries, c);
    }
    SameLookups(tables[protocol], entries);
    forall p ensures Lookup(tables, p) == Lookup(before[protocol := entries], p) {
      assert p != protocol ==> Lookup(tables, p) == Lookup(before, p);
    }
    SameLookups(tables, before[protocol := entries]);
  }

  lemma SameLookups<K(!new), V>(m: map<K, V>, n: map<K, V>)
    requires forall k :: Lookup(m, k) == Lookup(n, k)
    ensures m == n
  {
    forall k ensures k in m <==> k in n { assert Lookup(m, k) == Lookup(n, k); }
    forall k | k in m ensures m[k] == n[k] { assert Lookup(m, k) == Lookup(n, k); }
  }

  /** Only transient errors are retryable, only safety errors need a safe state; so never both. */
  lemma FlagsFollowClass(tables: Tables, protocol: Option<string>, raw: Raw)
    ensures var c := Classify(tables, protocol, raw);
            && (c.retryable <==> c.kind.Transient?) && (c.safeStateRequired <==> c.kind.Safety?)
            && !(c.retryable && c.safeStateRequired)
  {
    assert forall k :: DefaultFlags(k) == (k.Transient?, k.Safety?);
  }

  /**
   * Registering a class for a protocol's code changes the class of exactly that code: for the
   * protocol itself, and through the fallback table for every protocol without an entry of its own.
   */
  lemma RegisterChangesOneCode(tables: Tables, p: string, code: string, kind: DeviceErrorClass, q: Option<string>, raw: Raw)
    ensures var before, after := Classify(tables, q, raw), Classify(Put(tables, p, code, kind), q, raw);
            var own := q.Some? && q.value != "";
            var hit := NormalizeRaw(raw) == code
                       && ((own && q.value == p) || (p == FALLBACK && (own ==> Direct(tables, q.value, code).None?)));
            after.kind == (if hit then kind else before.kind) && after.code == before.code
  {}

  /** The shipped safety codes, seen through any protocol without an entry of its own for them. */
  lemma ShippedSafetyTrip(protocol: Option<string>)
    requires protocol.Some? ==> protocol.value !in {"modbus", "opcua", FALLBACK}
    ensures var tables: Tables := map["modbus" := MODBUS_EXCEPTIONS, "opcua" := OPCUA_STATUS, FALLBACK := GENERIC];
            Classify(tables, protocol, StringCode("SAFETY_TRIP")).kind == Safety
  {}

  predicate ModbusRetried(code: string) { code in {"4", "5", "6", "10", "11"} }

  predicate OpcuaRetried(code: string) {
    code in {"BadTimeout", "BadServerNotConnected", "BadConnectionClosed", "BadServerHalted", "BadResourceUnavailable"}
  }

  predicate GenericRetried(code: string) { code in {"EXECUTION_TIMEOUT", "TRANSPORT_ERROR", "ECONNRESET", "ETIMEDOUT", "ECONNREFUSED"} }

  lemma ModbusKinds(code: string)
    ensures code in MODBUS_EXCEPTIONS ==> (MODBUS_EXCEPTIONS[code] == if ModbusRetried(code) then Transient else Permanent)
    ensures ModbusRetried(code) ==> code in MODBUS_EXCEPTIONS
    ensures code in MODBUS_EXCEPTIONS ==> |code| <= 2
  {}

  lemma OpcuaKinds(code: string)
    ensures code in OPCUA_STATUS ==> (OPCUA_STATUS[code] == Transient <==> OpcuaRetried(code))
    ensures code in OPCUA_STATUS ==> (OPCUA_STATUS[code] == Safety <==> code in {"BadOutOfService", "BadDeviceFailure"})
    ensures OpcuaRetried(code) || code in {"BadOutOfService", "BadDeviceFailure"} ==> code in OPCUA_STATUS
    ensures code in OPCUA_STATUS ==> |code| > 2 && code[1] == 'a'
  {}

  lemma GenericKinds(code: string)
    ensures code in GENERIC ==> (GENERIC[code] == Transient <==> GenericRetried(code))
    ensures code in GENERIC ==> (GENERIC[code] == Safety <==> code == "SAFETY_TRIP")
    ensures GenericRetried(code) || code == "SAFETY_TRIP" ==> code in GENERIC
    ensures code in GENERIC ==> |code| > 2 && code[1] != 'a'
  {}

  /** Through the shipped tables exactly these codes are of the safety class, and exactly these are retried. */
  lemma ShippedExactly(protocol: Option<string>, code: string)
    ensures var tables: Tables := map["modbus" := MODBUS_EXCEPTIONS, "opcua" := OPCUA_STATUS, FALLBACK := GENERIC];
            var c := Classify(tables, protocol, StringCode(code));
            && (c.safeStateRequired <==> code == "SAFETY_TRIP" || (protocol == Some("opcua") && code in {"BadOutOfService", "BadDeviceFailure"}))
            && (c.retryable <==>
                  || GenericRetried(code) || (protocol == Some("modbus") && ModbusRetried(code)) || (protocol == Some("opcua") && OpcuaRetried(code)))
  {
    ModbusKinds(code);
    OpcuaKinds(code);
    GenericKinds(code);
    hide MODBUS_EXCEPTIONS, OPCUA_STATUS, GENERIC;
    assert GenericRetried(code) || code == "SAFETY_TRIP" ==> |code| > 2 && code[1] != 'a';
  }

  /** A code that no table holds is unclassified, so neither retried nor answered with a safe state. */
  lemma UnheldIsUnclassified(tables: Tables, protocol: Option<string>, raw: Raw)
    requires forall p | p in tables :: NormalizeRaw(raw) !in tables[p]
    ensures Classify(tables, protocol, raw).kind == Unclassified
  {}

  /** The code of a classification: the raw code, after the protocol in upper case where there is one. */
  lemma CodeTells(tables: Tables, protocol: Option<string>, raw: Raw)
    ensures var code := Classify(tables, protocol, raw).code;
            var own := if protocol.Some? then protocol.value else "";
            var told := match raw
                        case NumberCode(text) => text
                        case StringCode(s) => s
                        case ErrorObject(errorCode, c) => if errorCode.Some? then errorCode.value else if c.Some? then c.value else "unknown"
                        case Other => "unknown";
            if own == "" then code == told
            else
              && |code| == |own| + 1 + |told| && code[|own|] == ':' && code[|own| + 1..] == told
              && forall i | 0 <= i < |own| :: code[i] == if 'a' <= own[i] <= 'z' then own[i] - 'a' + 'A' else own[i]
  {}
}
