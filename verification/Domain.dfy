/** Events, correlation keys and emitted windows, and the text identities that deduplication rests on
    (internal/domain/key.go, internal/domain/event.go). Times are nanoseconds since the epoch. */
module Domain {
  import opened DecimalText

  datatype CorrelationKey = CorrelationKey(userID: string, deviceID: string, processID: int, podID: string)

  /** `time.Time`: the zero time, or an instant. */
  datatype Instant = ZeroTime | At(nanos: int)

  const KNOWN_KINDS := 5

  datatype Event = Event(
    deviceID: string, userID: string, processID: int, podID: string, kind: nat,
    observedAt: Instant, latencyNanos: int, bytes: int, failed: bool)
  {
    predicate Valid() {
      && deviceID != ""
      && userID != ""
      && kind < KNOWN_KINDS
      && latencyNanos >= 0
      && bytes >= 0
      && observedAt.At?
    }

    function Correlation(): CorrelationKey { CorrelationKey(userID, deviceID, processID, podID) }
  }

  datatype Batch = Batch(deviceID: string, events: seq<Event>)

  datatype CommandKind = UnknownCommand | ResetCounters | QuarantineDevice

  datatype Command = Command(kind: CommandKind, userID: string, deviceID: string, actor: string) {
    predicate Valid() { !kind.UnknownCommand? && userID != "" && deviceID != "" && actor != "" }
  }

  datatype AggregateWindow = AggregateWindow(
    key: CorrelationKey, windowID: int, sequence: int, windowStart: int, windowEnd: int,
    count: int, errorCount: int, bytes: int, p95Nanos: int, p99Nanos: int, maxNanos: int)

  // ---- Validation ----

  datatype Refusal =
    | MissingDeviceID | MissingUserID | InvalidKind | NegativeLatency | NegativeBytes | ZeroTimestamp | MissingActor

  const EVENT_FAULTS: seq<Refusal> :=
    [MissingDeviceID, MissingUserID, InvalidKind, NegativeLatency, NegativeBytes, ZeroTimestamp]

  const COMMAND_FAULTS: seq<Refusal> := [InvalidKind, MissingUserID, MissingDeviceID, MissingActor]

  predicate EventHas(e: Event, fault: Refusal) {
    match fault
    case MissingDeviceID => e.deviceID == ""
    case MissingUserID => e.userID == ""
    case InvalidKind => e.kind >= KNOWN_KINDS
    case NegativeLatency => e.latencyNanos < 0
    case NegativeBytes => e.bytes < 0
    case ZeroTimestamp => e.observedAt.ZeroTime?
    case MissingActor => false
  }

  predicate CommandHas(c: Command, fault: Refusal) {
    match fault
    case MissingDeviceID => c.deviceID == ""
    case MissingUserID => c.userID == ""
    case InvalidKind => c.kind.UnknownCommand?
    case MissingActor => c.actor == ""
    case _ => false
  }

  /** The first of the faults, in the order given, that is one. */
  predicate FirstOf(faults: seq<Refusal>, has: Refusal -> bool, r: Option<Refusal>) {
    match r
    case None => forall f :: f in faults ==> !has(f)
    case Some(fault) =>
      exists i :: 0 <= i < |faults| && faults[i] == fault && has(fault) && forall j :: 0 <= j < i ==> !has(faults[j])
  }

  /** `Event.Validate`: the first thing wrong with an event. */
  method ValidateEvent(e: Event) returns (r: Option<Refusal>)
    ensures r.None? <==> e.Valid()
    ensures FirstOf(EVENT_FAULTS, f => EventHas(e, f), r)
  {
    assert EVENT_FAULTS[0] == MissingDeviceID && EVENT_FAULTS[1] == MissingUserID && EVENT_FAULTS[2] == InvalidKind;
    assert EVENT_FAULTS[3] == NegativeLatency && EVENT_FAULTS[4] == NegativeBytes && EVENT_FAULTS[5] == ZeroTimestamp;
    if e.deviceID == "" { return Some(MissingDeviceID); }
    if e.userID == "" { return Some(MissingUserID); }
    if e.kind > 4 { return Some(InvalidKind); }
    if e.latencyNanos < 0 { return Some(NegativeLatency); }
    if e.bytes < 0 { return Some(NegativeBytes); }
    if e.observedAt == ZeroTime { return Some(ZeroTimestamp); }
    return None;
  }

  /** `Command.Validate`. */
  method ValidateCommand(c: Command) returns (r: Option<Refusal>)
    ensures r.None? <==> c.Valid()
    ensures FirstOf(COMMAND_FAULTS, f => CommandHas(c, f), r)
  {
    assert COMMAND_FAULTS[0] == InvalidKind && COMMAND_FAULTS[1] == MissingUserID;
    assert COMMAND_FAULTS[2] == MissingDeviceID && COMMAND_FAULTS[3] == MissingActor;
    if c.kind != ResetCounters && c.kind != QuarantineDevice { return Some(InvalidKind); }
    if c.userID == "" { return Some(MissingUserID); }
    if c.deviceID == "" { return Some(MissingDeviceID); }
    if c.actor == "" { return Some(MissingActor); }
    return None;
  }

  // ---- Text identities ----

  function DeviceScope(userID: string, deviceID: string): string { "{" + userID + "}:" + deviceID }

  function KeyText(k: CorrelationKey): string {
    DeviceScope(k.userID, k.deviceID) + ":" + Itoa(k.processID) + ":" + k.podID
  }

  function WindowIdentity(w: AggregateWindow): string { KeyText(w.key) + "#" + Itoa(w.windowID) }

  /** What makes two emissions the same emission: key, window and sequence. */
  function Identity(w: AggregateWindow): string { WindowIdentity(w) + "#" + Itoa(w.sequence) }

  // ---- Reading identities back ----

  datatype IdentityParts = IdentityParts(keyText: string, windowID: int, sequence: int)

  /** Splits at the last `#`, reading a number after it. */
  function CutNumber(s: string): Option<(string, int)> {
    var i := LastIndexOf(s, '#');
    if i < 0 then None
    else match ParseSigned(s[i + 1..]) case Some(n) => Some((s[..i], n)) case None => None
  }

  function ParseIdentity(s: string): Option<IdentityParts> {
    match CutNumber(s)
    case None => None
    case Some((front, sequence)) =>
      match CutNumber(front)
      case None => None
      case Some((keyText, windowID)) => Some(IdentityParts(keyText, windowID, sequence))
  }

  /** Reads `{user}:rest`, the user ending at the first closing brace. */
  function ParseScope(s: string): (r: Option<(string, string)>)
    ensures r.Some? ==> '}' !in r.value.0
  {
    if s == [] || s[0] != '{' then None
    else
      var i := IndexOf(s[1..], '}');
      if i + 3 > |s| || s[i + 2] != ':' then None else Some((s[1..][..i], s[i + 3..]))
  }

  /** Reads `head:rest`, the head ending at the first colon. */
  function CutColon(s: string): (r: Option<(string, string)>)
    ensures r.Some? ==> ':' !in r.value.0
  {
    var i := IndexOf(s, ':');
    if i == |s| then None else Some((s[..i], s[i + 1..]))
  }

  /** Reads a correlation key, each field ending at the first separator after it. */
  function ParseKey(s: string): (r: Option<CorrelationKey>)
    ensures r.Some? ==> '}' !in r.value.userID && ':' !in r.value.deviceID
  {
    match ParseScope(s)
    case None => None
    case Some((user, rest)) =>
      match CutColon(rest)
      case None => None
      case Some((device, tail)) =>
        match CutColon(tail)
        case None => None
        case Some((pidText, pod)) =>
          match ParseSigned(pidText)
          case None => None
          case Some(pid) => Some(CorrelationKey(user, device, pid, pod))
  }

  lemma CutNumberRoundTrip(front: string, n: int)
    ensures CutNumber(front + "#" + Itoa(n)) == Some((front, n))
  {
    var s := front + "#" + Itoa(n);
    LastCut(front, '#', Itoa(n));
    ItoaRoundTrip(n);
    assert s[..|front|] == front && s[|front| + 1..] == Itoa(n);
  }

  /** Window id, sequence and key text can be read back whatever the identifier strings contain. */
  lemma IdentityRoundTrip(w: AggregateWindow)
    ensures ParseIdentity(Identity(w)) == Some(IdentityParts(KeyText(w.key), w.windowID, w.sequence))
  {
    CutNumberRoundTrip(WindowIdentity(w), w.sequence);
    CutNumberRoundTrip(KeyText(w.key), w.windowID);
  }

  /** Emissions with different sequences never share an identity, so neither a pending entry nor a
      deduplication record can stand for two of them. */
  lemma IdentityDeterminesEmission(v: AggregateWindow, w: AggregateWindow)
    requires Identity(v) == Identity(w)
    ensures v.sequence == w.sequence && v.windowID == w.windowID && KeyText(v.key) == KeyText(w.key)
  {
    IdentityRoundTrip(v);
    IdentityRoundTrip(w);
  }

  lemma ScopeRoundTrip(user: string, device: string)
    requires '}' !in user
    ensures ParseScope(DeviceScope(user, device)) == Some((user, device))
  {
    var s := DeviceScope(user, device);
    assert s[1..] == user + ['}'] + (":" + device);
    FirstCut(user, '}', ":" + device);
    assert s[1..][..|user|] == user && s[|user| + 3..] == device;
  }

  lemma CutColonRoundTrip(head: string, rest: string)
    requires ':' !in head
    ensures CutColon(head + ":" + rest) == Some((head, rest))
  {
    FirstCut(head, ':', rest);
    var s := head + [':'] + rest;
    assert s[..|head|] == head && s[|head| + 1..] == rest;
  }

  /** Neither user id goes on, after the other, with `}:`. */
  predicate UsersApart(u: string, v: string) { !(u + "}:" <= v) && !(v + "}:" <= u) }

  lemma SameUser(u: string, t: string, u': string, t': string)
    requires "{" + u + "}:" + t == "{" + u' + "}:" + t' && |u| == |u'|
    ensures u == u' && t == t'
  {
    var s := "{" + u + "}:" + t;
    assert s[1..1 + |u|] == u && s[3 + |u|..] == t;
    assert ("{" + u' + "}:" + t')[1..1 + |u|] == u' && ("{" + u' + "}:" + t')[3 + |u|..] == t';
  }

  /** The longer of two user ids in the same text goes on, after the shorter, with `}:`. */
  lemma UserOverhang(u: string, t: string, u': string, t': string) returns (z: string)
    requires "{" + u + "}:" + t == "{" + u' + "}:" + t' && |u| < |u'|
    ensures u' == u + "}:" + z && t == z + "}:" + t' && u + "}:" <= u'
  {
    UserContinues(u, t, u', t');
    z := u'[|u| + 2..];
    assert u' == u + "}:" + z;
    var s := "{" + u + "}:" + t;
    assert s == "{" + u + "}:" + (z + "}:" + t');
    assert s[|u| + 3..] == t;
  }

  lemma UserContinues(u: string, t: string, u': string, t': string)
    requires "{" + u + "}:" + t == "{" + u' + "}:" + t' && |u| < |u'|
    ensures u + "}:" <= u'
  {
    var s, s' := "{" + u + "}:" + t, "{" + u' + "}:" + t';
    assert s[1 + |u|] == '}' && s[2 + |u|] == ':' && s'[1 + |u'|] == '}';
    assert forall i :: 0 <= i < |u| ==> u[i] == s[1 + i];
    assert forall i :: 0 <= i < |u'| ==> u'[i] == s'[1 + i];
  }

  /** For users that are apart a store key names one device of one of them. */
  lemma DeviceScopeInjective(u: string, d: string, u': string, d': string)
    requires UsersApart(u, u')
    requires DeviceScope(u, d) == DeviceScope(u', d')
    ensures u == u' && d == d'
  {
    if |u| == |u'| {
      SameUser(u, d, u', d');
    } else if |u| < |u'| {
      var z := UserOverhang(u, d, u', d');
    } else {
      var z := UserOverhang(u', d', u, d);
    }
  }

  lemma KeyTextReads(k: CorrelationKey)
    requires '}' !in k.userID && ':' !in k.deviceID
    ensures ParseKey(KeyText(k)) == Some(k)
  {
    var tail := Itoa(k.processID) + ":" + k.podID;
    var rest := k.deviceID + ":" + tail;
    assert KeyText(k) == DeviceScope(k.userID, rest);
    ScopeRoundTrip(k.userID, rest);
    CutColonRoundTrip(k.deviceID, tail);
    CutColonRoundTrip(Itoa(k.processID), k.podID);
    ItoaRoundTrip(k.processID);
  }

  /** A reader that ends each field at the first separator gives the key back exactly when the user id has no
      closing brace and the device id no colon; the pod id is unrestricted. Which texts stand for one key
      only is settled in `KeyCollisions`. */
  lemma KeyRoundTrip(k: CorrelationKey)
    ensures ParseKey(KeyText(k)) == Some(k) <==> '}' !in k.userID && ':' !in k.deviceID
  {
    if '}' !in k.userID && ':' !in k.deviceID { KeyTextReads(k); }
  }

  /** For such keys the identity determines key, window and sequence together. */
  lemma IdentityDeterminesKey(v: AggregateWindow, w: AggregateWindow)
    requires '}' !in v.key.userID && ':' !in v.key.deviceID
    requires '}' !in w.key.userID && ':' !in w.key.deviceID
    requires Identity(v) == Identity(w)
    ensures v.key == w.key && v.windowID == w.windowID && v.sequence == w.sequence
  {
    IdentityDeterminesEmission(v, w);
    KeyRoundTrip(v.key);
    KeyRoundTrip(w.key);
  }

  /** The texts, written out. */
  lemma TextForms()
    ensures DeviceScope("u", "d") == "{u}:d"
    ensures KeyText(CorrelationKey("u", "d", -7, "p")) == "{u}:d:-7:p"
    ensures forall w: AggregateWindow ::
              w.key == CorrelationKey("u", "d", -7, "p") && w.windowID == 3 && w.sequence == 9 ==>
                WindowIdentity(w) == "{u}:d:-7:p#3" && Identity(w) == "{u}:d:-7:p#3#9"
  {
    assert Itoa(-7) == "-7" && Itoa(3) == "3" && Itoa(9) == "9";
    assert DeviceScope("u", "d") == "{u}:d";
    assert KeyText(CorrelationKey("u", "d", -7, "p")) == "{u}:d:-7:p";
  }

  /** Without the conditions the text is ambiguous: a brace in the user id, or a colon in the device id,
      lets two different keys share their text. */
  lemma AmbiguousKeys()
    ensures KeyText(CorrelationKey("a}:b", "c", 1, "p")) == KeyText(CorrelationKey("a", "b}:c", 1, "p"))
    ensures KeyText(CorrelationKey("u", "d:1:x", 2, "p")) == KeyText(CorrelationKey("u", "d", 1, "x:2:p"))
    ensures DeviceScope("a}:b", "c") == DeviceScope("a", "b}:c")
  {
    assert Itoa(1) == "1" && Itoa(2) == "2";
    assert DeviceScope("a}:b", "c") == "{a}:b}:c" == DeviceScope("a", "b}:c");
    assert KeyText(CorrelationKey("u", "d:1:x", 2, "p")) == "{u}:d:1:x:2:p";
    assert KeyText(CorrelationKey("u", "d", 1, "x:2:p")) == "{u}:d:1:x:2:p";
  }
}
