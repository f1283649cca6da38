/** Which device scopes and which correlation keys share their text with another (internal/domain/key.go:26-50):
    exact tests on the fields. User and device ids are not empty, as events and commands require, and process ids
    are 32-bit. */
module KeyCollisions {
  import opened DecimalText
  import opened Domain

  predicate IsInt32(n: int) { -0x8000_0000 <= n < 0x8000_0000 }

  predicate IsKey(k: CorrelationKey) { k.userID != "" && k.deviceID != "" && IsInt32(k.processID) }

  ghost predicate Shared(k: CorrelationKey) {
    exists other: CorrelationKey :: IsKey(other) && other != k && KeyText(other) == KeyText(k)
  }

  predicate BraceColonAt(s: string, i: nat) { i + 1 < |s| && s[i] == '}' && s[i + 1] == ':' }

  /** A `}:` after something. */
  predicate CutsUser(u: string, i: nat) { i > 0 && BraceColonAt(u, i) }

  /** A `}:` before something. */
  predicate CutsDevice(d: string, i: nat) { i + 2 < |d| && BraceColonAt(d, i) }

  /** A process id follows a colon, that follows something, up to the end or to another colon. */
  predicate NumberAfterColon(s: string, x: string, n: int, y: string) {
    IsInt32(n) && x != "" && s == x + ":" + Itoa(n) + y && (y == "" || y[0] == ':')
  }

  /** A process id comes before a colon, from the start or from another colon on. */
  predicate NumberBeforeColon(s: string, x: string, n: int, y: string) {
    IsInt32(n) && s == x + Itoa(n) + ":" + y && (x == "" || x[|x| - 1] == ':')
  }

  /** A `}:` after something in the user id or before something in the device id, a device id with a number
      after one of its colons, or a pod id with a number before one of its colons. */
  ghost predicate Ambiguous(k: CorrelationKey) {
    || (exists i: nat :: CutsUser(k.userID, i)) || (exists i: nat :: CutsDevice(k.deviceID, i))
    || (exists x, n, y :: NumberAfterColon(k.deviceID, x, n, y))
    || (exists x, n, y :: NumberBeforeColon(k.podID, x, n, y))
  }

  function Tail(device: string, process: int, pod: string): string { device + ":" + Itoa(process) + ":" + pod }

  lemma TextIsTail(k: CorrelationKey)
    ensures KeyText(k) == "{" + k.userID + "}:" + Tail(k.deviceID, k.processID, k.podID)
  {
    hide Itoa;
  }

  lemma NoColon(n: int)
    ensures ':' !in Itoa(n)
  {
  }

  lemma ItoaInjective(m: int, n: int)
    requires Itoa(m) == Itoa(n)
    ensures m == n
  {
    ItoaRoundTrip(m);
    ItoaRoundTrip(n);
  }

  // ---- Cutting at colons ----

  lemma SameFirst(a: string, b: string, a': string, b': string)
    requires ':' !in a && ':' !in a' && a + ":" + b == a' + ":" + b'
    ensures a == a' && b == b'
  {
    var s := a + [':'] + b;
    assert s == a' + [':'] + b';
    FirstCut(a, ':', b);
    FirstCut(a', ':', b');
    assert s[..|a|] == a && s[..|a'|] == a' && s[|a| + 1..] == b && s[|a'| + 1..] == b';
  }

  lemma Overhang(a: string, b: string, a': string, b': string) returns (r: string)
    requires a + ":" + b == a' + ":" + b' && |a| < |a'|
    ensures a' == a + ":" + r && b == r + ":" + b'
  {
    var s := a + ":" + b;
    r := a'[|a| + 1..];
    assert s[..|a|] == a && s[..|a'|] == a' && s[|a|] == ':' && s[|a| + 1..] == b && s[|a'|] == ':'
        && s[|a'| + 1..] == b';
    assert a' == a'[..|a|] + [a'[|a|]] + r;
    assert s[|a| + 1..] == s[|a| + 1..|a'|] + [s[|a'|]] + s[|a'| + 1..];
  }

  /** A number at the head of `r:rest`: all of `r`, or `r` up to its first colon. */
  lemma NumberHead(n: int, tail: string, r: string, rest: string) returns (y: string)
    requires Itoa(n) + ":" + tail == r + ":" + rest
    ensures r == Itoa(n) + y && (y == "" || y[0] == ':')
    ensures y == "" ==> tail == rest
    ensures y != "" ==> tail == y[1..] + ":" + rest
  {
    NoColon(n);
    hide Itoa;
    if ':' in r {
      var i := IndexOf(r, ':');
      var head, z := r[..i], r[i + 1..];
      assert r == head + ":" + z;
      assert r + ":" + rest == head + ":" + (z + ":" + rest);
      SameFirst(Itoa(n), tail, head, z + ":" + rest);
      y := ":" + z;
      assert y[1..] == z;
    } else {
      SameFirst(Itoa(n), tail, r, rest);
      y := "";
    }
  }

  lemma TailSplits(d: string, p: int, pod: string)
    ensures Tail(d, p, pod) == d + ":" + (Itoa(p) + ":" + pod)
  {
    hide Itoa;
  }

  lemma SameDevice(d: string, p: int, pod: string, d': string, p': int, pod': string)
    requires Tail(d, p, pod) == Tail(d', p', pod') && |d'| == |d|
    ensures d' == d && p' == p && pod' == pod
  {
    TailSplits(d, p, pod);
    TailSplits(d', p', pod');
    NoColon(p);
    NoColon(p');
    hide Itoa, Tail;
    var rest, rest' := Itoa(p) + ":" + pod, Itoa(p') + ":" + pod';
    assert (d + ":" + rest)[..|d|] == d && (d' + ":" + rest')[..|d|] == d';
    assert (d + ":" + rest)[|d| + 1..] == rest && (d' + ":" + rest')[|d| + 1..] == rest';
    SameFirst(Itoa(p), pod, Itoa(p'), pod');
    ItoaInjective(p, p');
  }

  lemma ShorterDevice(d: string, p: int, pod: string, d': string, p': int, pod': string) returns (y: string)
    requires Tail(d, p, pod) == Tail(d', p', pod') && IsInt32(p') && 0 < |d'| < |d|
    ensures NumberAfterColon(d, d', p', y)
  {
    TailSplits(d, p, pod);
    TailSplits(d', p', pod');
    hide Itoa, Tail, IsInt32;
    var rest, rest' := Itoa(p) + ":" + pod, Itoa(p') + ":" + pod';
    var r := Overhang(d', rest', d, rest);
    y := NumberHead(p', pod', r, rest);
    assert d == d' + ":" + Itoa(p') + y;
  }

  lemma LongerDevice(d: string, p: int, pod: string, d': string, p': int, pod': string) returns (x: string)
    requires Tail(d, p, pod) == Tail(d', p', pod') && IsInt32(p') && |d'| > |d|
    ensures NumberBeforeColon(pod, x, p', pod')
  {
    TailSplits(d, p, pod);
    TailSplits(d', p', pod');
    hide Itoa, Tail, IsInt32;
    var rest, rest' := Itoa(p) + ":" + pod, Itoa(p') + ":" + pod';
    var r := Overhang(d, rest, d', rest');
    var y := NumberHead(p, pod, r, rest');
    x := if y == "" then "" else y[1..] + ":";
    assert pod == x + Itoa(p') + ":" + pod';
  }

  /** Two readings of the same text after the user id. */
  lemma TailCases(d: string, p: int, pod: string, d': string, p': int, pod': string)
    requires Tail(d, p, pod) == Tail(d', p', pod') && IsInt32(p) && IsInt32(p') && d' != ""
    ensures |d'| == |d| ==> d' == d && p' == p && pod' == pod
    ensures |d'| < |d| ==> d' <= d && exists x, n, y :: NumberAfterColon(d, x, n, y)
    ensures |d'| > |d| ==> exists x, n, y :: NumberBeforeColon(pod, x, n, y)
  {
    if |d'| == |d| {
      SameDevice(d, p, pod, d', p', pod');
    } else if |d'| < |d| {
      var y := ShorterDevice(d, p, pod, d', p', pod');
      hide Itoa, Tail;
      assert d[..|d'|] == d';
    } else {
      var x := LongerDevice(d, p, pod, d', p', pod');
      hide Itoa, Tail, NumberBeforeColon;
    }
  }

  // ---- Every ambiguous key is shared ----

  lemma TailPrefix(a: string, b: string, p: int, pod: string)
    ensures Tail(a + "}:" + b, p, pod) == a + "}:" + Tail(b, p, pod)
  {
    hide Itoa;
  }

  lemma UserShared(k: CorrelationKey, i: nat)
    requires CutsUser(k.userID, i) && IsKey(k)
    ensures Shared(k)
  {
    var a, b := k.userID[..i], k.userID[i + 2..];
    var other := CorrelationKey(a, b + "}:" + k.deviceID, k.processID, k.podID);
    TextIsTail(k);
    TextIsTail(other);
    TailPrefix(b, k.deviceID, k.processID, k.podID);
    hide Tail, KeyText;
    assert k.userID == a + "}:" + b;
    assert "{" + a + "}:" + (b + "}:" + Tail(k.deviceID, k.processID, k.podID))
        == "{" + k.userID + "}:" + Tail(k.deviceID, k.processID, k.podID);
    assert |other.userID| < |k.userID|;
  }

  lemma DeviceShared(k: CorrelationKey, i: nat)
    requires CutsDevice(k.deviceID, i) && IsKey(k)
    ensures Shared(k)
  {
    var a, b := k.deviceID[..i], k.deviceID[i + 2..];
    var other := CorrelationKey(k.userID + "}:" + a, b, k.processID, k.podID);
    TextIsTail(k);
    TextIsTail(other);
    TailPrefix(a, b, k.processID, k.podID);
    hide Tail, KeyText;
    assert k.deviceID == a + "}:" + b;
    assert "{" + (k.userID + "}:" + a) + "}:" + Tail(b, k.processID, k.podID)
        == "{" + k.userID + "}:" + (a + "}:" + Tail(b, k.processID, k.podID));
    assert |other.userID| > |k.userID|;
  }

  lemma AfterText(x: string, number: string, y: string, process: string, pod: string) returns (pod': string)
    requires y == "" || y[0] == ':'
    ensures x + ":" + number + y + ":" + process + ":" + pod == x + ":" + number + ":" + pod'
  {
    var after := y + ":" + process + ":" + pod;
    pod' := after[1..];
    assert after == [after[0]] + pod' && after[0] == ':';
    assert x + ":" + number + y + ":" + process + ":" + pod == x + ":" + number + after;
  }

  lemma NumberAfterShared(k: CorrelationKey, x: string, n: int, y: string)
    requires NumberAfterColon(k.deviceID, x, n, y) && IsKey(k)
    ensures Shared(k)
  {
    hide Itoa;
    var pod := AfterText(x, Itoa(n), y, Itoa(k.processID), k.podID);
    var other := CorrelationKey(k.userID, x, n, pod);
    TextIsTail(k);
    TextIsTail(other);
    hide KeyText;
    assert Tail(k.deviceID, k.processID, k.podID) == Tail(x, n, pod);
    assert |other.deviceID| < |k.deviceID|;
  }

  lemma BeforeText(d: string, process: string, x: string, number: string, y: string) returns (d': string)
    requires x == "" || x[|x| - 1] == ':'
    ensures d + ":" + process + ":" + (x + number + ":" + y) == d' + ":" + number + ":" + y && |d'| > |d|
  {
    var before := d + ":" + process + ":" + x;
    d' := before[..|before| - 1];
    assert before == d' + [before[|before| - 1]] && before[|before| - 1] == ':';
    assert d + ":" + process + ":" + (x + number + ":" + y) == before + number + ":" + y;
    assert process == "" || |before| > |d| + 1;
  }

  lemma NumberBeforeShared(k: CorrelationKey, x: string, n: int, y: string)
    requires NumberBeforeColon(k.podID, x, n, y) && IsKey(k)
    ensures Shared(k)
  {
    hide Itoa;
    var device := BeforeText(k.deviceID, Itoa(k.processID), x, Itoa(n), y);
    var other := CorrelationKey(k.userID, device, n, y);
    TextIsTail(k);
    TextIsTail(other);
    hide KeyText;
    assert Tail(k.deviceID, k.processID, k.podID) == Tail(device, n, y);
  }

  // ---- Every shared key is ambiguous ----

  lemma SharedIsAmbiguous(k: CorrelationKey, other: CorrelationKey)
    requires IsKey(k) && IsKey(other) && other != k && KeyText(other) == KeyText(k)
    ensures Ambiguous(k)
  {
    TextIsTail(k);
    TextIsTail(other);
    hide Itoa, KeyText, NumberAfterColon, NumberBeforeColon, Tail, IsInt32;
    var t, t' := Tail(k.deviceID, k.processID, k.podID), Tail(other.deviceID, other.processID, other.podID);
    if |other.userID| < |k.userID| {
      var z := UserOverhang(other.userID, t', k.userID, t);
      assert k.userID[|other.userID|] == '}' && k.userID[|other.userID| + 1] == ':';
      assert CutsUser(k.userID, |other.userID|);
    } else if |other.userID| == |k.userID| {
      SameUser(k.userID, t, other.userID, t');
      TailCases(k.deviceID, k.processID, k.podID, other.deviceID, other.processID, other.podID);
    } else {
      var z := UserOverhang(k.userID, t, other.userID, t');
      LongerUser(k, z, other);
    }
  }

  lemma LongerUser(k: CorrelationKey, z: string, other: CorrelationKey)
    requires IsKey(k) && IsKey(other)
    requires Tail(k.deviceID, k.processID, k.podID) == z + "}:" + Tail(other.deviceID, other.processID, other.podID)
    ensures Ambiguous(k)
  {
    hide Itoa, NumberAfterColon, NumberBeforeColon, IsInt32;
    var device := z + "}:" + other.deviceID;
    assert Tail(device, other.processID, other.podID) == z + "}:" + Tail(other.deviceID, other.processID, other.podID);
    TailCases(k.deviceID, k.processID, k.podID, device, other.processID, other.podID);
    if |device| <= |k.deviceID| {
      assert device <= k.deviceID;
      assert device[|z|] == '}' && device[|z| + 1] == ':';
      assert CutsDevice(k.deviceID, |z|);
    }
  }

  /** A key shares its text with another key if and only if its own fields are ambiguous. */
  lemma SharedIffAmbiguous(k: CorrelationKey)
    requires IsKey(k)
    ensures Shared(k) <==> Ambiguous(k)
  {
    hide NumberAfterColon, NumberBeforeColon, IsInt32, KeyText;
    if Shared(k) {
      var other: CorrelationKey :| IsKey(other) && other != k && KeyText(other) == KeyText(k);
      SharedIsAmbiguous(k, other);
    }
    if Ambiguous(k) { AmbiguousIsShared(k); }
  }

  lemma AmbiguousIsShared(k: CorrelationKey)
    requires IsKey(k) && Ambiguous(k)
    ensures Shared(k)
  {
    hide NumberAfterColon, NumberBeforeColon, IsInt32, KeyText, CutsUser, CutsDevice, Shared;
    if i: nat :| CutsUser(k.userID, i) {
      UserShared(k, i);
    } else if i: nat :| CutsDevice(k.deviceID, i) {
      DeviceShared(k, i);
    } else if x, n, y :| NumberAfterColon(k.deviceID, x, n, y) {
      NumberAfterShared(k, x, n, y);
    } else {
      var x, n, y :| NumberBeforeColon(k.podID, x, n, y);
      NumberBeforeShared(k, x, n, y);
    }
  }

  /** An emission's identity determines its key among all keys if and only if the key is not ambiguous. */
  lemma IdentityFixesKeyIff(w: AggregateWindow)
    requires IsKey(w.key)
    ensures (forall v: AggregateWindow :: IsKey(v.key) && Identity(v) == Identity(w) ==> v.key == w.key)
       <==> !Ambiguous(w.key)
  {
    SharedIffAmbiguous(w.key);
    hide Ambiguous, KeyText, IsKey;
    if Shared(w.key) {
      var other: CorrelationKey :| IsKey(other) && other != w.key && KeyText(other) == KeyText(w.key);
      assert Identity(w.(key := other)) == Identity(w);
    } else {
      forall v: AggregateWindow | IsKey(v.key) && Identity(v) == Identity(w) ensures v.key == w.key {
        IdentityDeterminesEmission(v, w);
      }
    }
  }

  // ---- Device scopes ----

  predicate OtherPair(u: string, d: string, u': string, d': string) {
    u' != "" && d' != "" && (u' != u || d' != d) && DeviceScope(u', d') == DeviceScope(u, d)
  }

  /** A device of a user shares its scope with another if and only if `}:` comes after something in the user id
      or before something in the device id. */
  lemma ScopeSharedIff(u: string, d: string)
    requires u != "" && d != ""
    ensures (exists u', d' :: OtherPair(u, d, u', d'))
       <==> (exists i: nat :: CutsUser(u, i)) || (exists i: nat :: CutsDevice(d, i))
  {
    if u', d' :| OtherPair(u, d, u', d') { ScopeIsCut(u, d, u', d'); }
    if i: nat :| CutsUser(u, i) {
      assert u == u[..i] + "}:" + u[i + 2..];
      assert OtherPair(u, d, u[..i], u[i + 2..] + "}:" + d);
    } else if i: nat :| CutsDevice(d, i) {
      assert d == d[..i] + "}:" + d[i + 2..];
      assert OtherPair(u, d, u + "}:" + d[..i], d[i + 2..]);
    }
  }

  lemma ScopeIsCut(u: string, d: string, u': string, d': string)
    requires OtherPair(u, d, u', d')
    ensures (exists i: nat :: CutsUser(u, i)) || (exists i: nat :: CutsDevice(d, i))
  {
    if |u| == |u'| {
      SameUser(u, d, u', d');
    } else if |u'| < |u| {
      var z := UserOverhang(u', d', u, d);
      assert CutsUser(u, |u'|);
    } else {
      var z := UserOverhang(u, d, u', d');
      assert CutsDevice(d, |z|);
    }
  }

  /** Two users have devices with the same scope if and only if they are not apart. */
  lemma UsersMeetIff(u: string, u': string)
    requires u != u'
    ensures (exists d, d' :: d != "" && d' != "" && DeviceScope(u, d) == DeviceScope(u', d')) <==> !UsersApart(u, u')
  {
    if d, d' :| DeviceScope(u, d) == DeviceScope(u', d') {
      if UsersApart(u, u') { DeviceScopeInjective(u, d, u', d'); }
    }
    if u + "}:" <= u' {
      Meeting(u, u');
    } else if u' + "}:" <= u {
      Meeting(u', u);
    }
  }

  lemma Meeting(u: string, u': string)
    requires u + "}:" <= u'
    ensures DeviceScope(u, u'[|u| + 2..] + "}:x") == DeviceScope(u', "x")
  {
    assert u' == u + "}:" + u'[|u| + 2..];
  }
}
