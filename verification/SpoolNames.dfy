/** The names of spool entries (internal/spool/spool.go:167-195): an ordinal and a sequence number in twenty
    digits each, and the order they give. */
module SpoolNames {
  import opened DecimalText
  import opened Ordering

  const EXTENSION := ".batch"
  const PARTIAL := ".partial"
  const INT64 := 0x8000_0000_0000_0000
  const UINT64 := 0x1_0000_0000_0000_0000

  datatype Key = Key(ordinal: int, sequence: nat)

  predicate HasSuffix(s: string, suffix: string) { |s| >= |suffix| && s[|s| - |suffix|..] == suffix }

  function TrimSuffix(s: string, suffix: string): string { if HasSuffix(s, suffix) then s[..|s| - |suffix|] else s }

  /** `%020d-%020d.batch`. */
  function Name(ordinal: nat, sequence: nat): string { Padded(ordinal, 20) + "-" + Padded(sequence, 20) + EXTENSION }

  function ParseInt64(s: string): Option<int> {
    match ParseSigned(s)
    case Some(n) => if -INT64 <= n < INT64 then Some(n) else None
    case None => None
  }

  function ParseUint64(s: string): Option<nat> {
    match ParseNat(s)
    case Some(n) => if n < UINT64 then Some(n) else None
    case None => None
  }

  /** `parseName`. */
  function ParseName(name: string): Option<Key> {
    var trimmed := TrimSuffix(name, EXTENSION);
    var separator := LastIndexOf(trimmed, '-');
    if separator < 0 then None
    else
      match (ParseInt64(trimmed[..separator]), ParseUint64(trimmed[separator + 1..]))
      case (Some(ordinal), Some(sequence)) => Some(Key(ordinal, sequence))
      case _ => None
  }

  /** What `recover` takes for an entry. */
  predicate IsEntry(name: string) { HasSuffix(name, EXTENSION) && ParseName(name).Some? }

  function KeyOf(name: string): Key
    requires IsEntry(name)
  {
    ParseName(name).value
  }

  predicate KeyLess(a: Key, b: Key) { a.ordinal < b.ordinal || (a.ordinal == b.ordinal && a.sequence < b.sequence) }

  lemma DigitsNoSign(s: string)
    requires AllDigits(s) && s != []
    ensures ParseSigned(s) == Some(Value(s)) && '-' !in s
  {
    assert IsDigit(s[0]);
  }

  /** Where `parseName` cuts a name. */
  lemma NameCuts(o: string, q: string)
    requires '-' !in q
    ensures HasSuffix(o + "-" + q + EXTENSION, EXTENSION)
    ensures var trimmed := TrimSuffix(o + "-" + q + EXTENSION, EXTENSION);
            LastIndexOf(trimmed, '-') == |o| && trimmed[..|o|] == o && trimmed[|o| + 1..] == q
  {
    var trimmed := o + ['-'] + q;
    var name := o + "-" + q + EXTENSION;
    assert name == trimmed + EXTENSION;
    assert name[|name| - |EXTENSION|..] == EXTENSION && name[..|name| - |EXTENSION|] == trimmed;
    LastCut(o, '-', q);
  }

  /** A printed name reads back as the numbers it was printed from. */
  lemma NameRoundTrip(ordinal: nat, sequence: nat)
    requires ordinal < INT64 && sequence < UINT64
    ensures IsEntry(Name(ordinal, sequence)) && KeyOf(Name(ordinal, sequence)) == Key(ordinal, sequence)
  {
    hide Padded, HasSuffix, TrimSuffix, Value, LastIndexOf, ParseSigned;
    PaddedValue(ordinal, 20);
    PaddedValue(sequence, 20);
    DigitsNoSign(Padded(ordinal, 20));
    DigitsNoSign(Padded(sequence, 20));
    NameCuts(Padded(ordinal, 20), Padded(sequence, 20));
  }

  /** What is taken for an entry: two numbers in range with a hyphen between them, and the extension. */
  lemma EntryIff(name: string, ordinal: int, sequence: nat)
    ensures IsEntry(name) && KeyOf(name) == Key(ordinal, sequence)
       <==> exists o: string, q: string :: Spells(name, o, q, ordinal, sequence)
  {
    hide ParseSigned, ParseNat;
    if IsEntry(name) && KeyOf(name) == Key(ordinal, sequence) {
      var trimmed := TrimSuffix(name, EXTENSION);
      var separator := LastIndexOf(trimmed, '-');
      assert name == trimmed + EXTENSION && trimmed == trimmed[..separator] + "-" + trimmed[separator + 1..];
      assert Spells(name, trimmed[..separator], trimmed[separator + 1..], ordinal, sequence);
    }
    if o: string, q: string :| Spells(name, o, q, ordinal, sequence) {
      NumberNoHyphen(q);
      NameCuts(o, q);
    }
  }

  predicate Spells(name: string, o: string, q: string, ordinal: int, sequence: nat) {
    && name == o + "-" + q + ".batch"
    && ParseSigned(o) == Some(ordinal) && -0x8000_0000_0000_0000 <= ordinal < 0x8000_0000_0000_0000
    && ParseNat(q) == Some(sequence) && sequence < 0x1_0000_0000_0000_0000
  }

  lemma NumberNoHyphen(q: string)
    requires ParseNat(q).Some?
    ensures '-' !in q
  {
    assert forall i :: 0 <= i < |q| ==> IsDigit(q[i]);
  }

  /** Both numbers take twenty digits, so that names are of one length. */
  lemma NameForm(ordinal: nat, sequence: nat)
    requires ordinal < INT64 && sequence < UINT64
    ensures var name := Name(ordinal, sequence);
            && |name| == 47 && AllDigits(name[..20]) && name[20] == '-'
            && AllDigits(name[21..41]) && name[41..] == ".batch"
  {
    hide Padded, Pow10;
    TenToTwenty();
    PaddedLength(ordinal, 20);
    PaddedLength(sequence, 20);
    var name, o, q := Name(ordinal, sequence), Padded(ordinal, 20), Padded(sequence, 20);
    assert name[..20] == o && name[21..41] == q;
  }

  function Pow10(k: nat): nat { if k == 0 then 1 else 10 * Pow10(k - 1) }

  lemma TenToTwenty()
    ensures Pow10(20) == 100_000_000_000_000_000_000
  {
    assert Pow10(4) == 10_000 && Pow10(8) == 100_000_000 && Pow10(12) == 1_000_000_000_000;
    assert Pow10(16) == 10_000_000_000_000_000;
  }

  lemma {:induction false} DigitsLength(n: nat, k: nat)
    requires k > 0 && n < Pow10(k)
    ensures |Digits(n)| <= k
  {
    if n >= 10 { DigitsLength(n / 10, k - 1); }
  }

  lemma PaddedLength(n: nat, width: nat)
    requires width > 0 && n < Pow10(width)
    ensures |Padded(n, width)| == width
  {
    DigitsLength(n, width);
  }

  lemma LastOf(s: string, suffix: string)
    requires suffix != ""
    ensures HasSuffix(s, suffix) ==> s != "" && s[|s| - 1] == suffix[|suffix| - 1]
  {
    if HasSuffix(s, suffix) { assert s[|s| - |suffix|..][|suffix| - 1] == s[|s| - 1]; }
  }

  /** A partly written file is not taken for an entry, nor an entry for one. */
  lemma PartialIsNoEntry(name: string)
    ensures !IsEntry(name + ".partial") && HasSuffix(name + ".partial", PARTIAL)
    ensures IsEntry(name) ==> !HasSuffix(name, PARTIAL)
  {
    var temp := name + PARTIAL;
    assert temp[|temp| - |PARTIAL|..] == PARTIAL;
    LastOf(temp, EXTENSION);
    LastOf(temp, PARTIAL);
    LastOf(name, EXTENSION);
    LastOf(name, PARTIAL);
  }

  /** An entry's name is a plain file name. */
  lemma EntryIsPlain(name: string)
    requires IsEntry(name)
    ensures '/' !in name && name != "." && name != ""
  {
    var trimmed := TrimSuffix(name, EXTENSION);
    var separator := LastIndexOf(trimmed, '-');
    assert name == trimmed + EXTENSION;
    assert trimmed == trimmed[..separator] + ['-'] + trimmed[separator + 1..];
    PlainNumber(trimmed[..separator]);
    PlainDigits(trimmed[separator + 1..]);
  }

  lemma PlainDigits(s: string)
    requires ParseNat(s).Some?
    ensures '/' !in s
  {
    assert forall i :: 0 <= i < |s| ==> IsDigit(s[i]);
  }

  lemma PlainNumber(s: string)
    requires ParseSigned(s).Some?
    ensures '/' !in s
  {
    if s[0] == '-' || s[0] == '+' {
      PlainDigits(s[1..]);
      assert s == [s[0]] + s[1..];
    } else {
      PlainDigits(s);
    }
  }

  // ---- Sorting ----

  /** What `recover` sorts. */
  datatype Found = Found(name: string, key: Key)

  predicate FoundLess(a: Found, b: Found) { KeyLess(a.key, b.key) }

  lemma FoundOrder()
    ensures WeakOrder(FoundLess)
  {
  }
}
