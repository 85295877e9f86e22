// Textual encodings on the ordered-stream path: decimal numbers, the request digest and request ids.
// A std::string is a sequence of bytes; it is modelled as a Dafny string, one char a byte.

module Decimal {
  import opened Wrappers
  import opened UInt64

  predicate IsDigit(c: char) {
    '0' <= c <= '9'
  }

  predicate AllDigits(s: string) {
    forall i | 0 <= i < |s| :: IsDigit(s[i])
  }

  predicate IsUnsignedDecimal(s: string) {
    s != [] && AllDigits(s)
  }

  function DigitValue(c: char): (d: nat)
    requires IsDigit(c)
    ensures d < 10
  {
    c as int - '0' as int
  }

  /** The number a digit string denotes, with no bound on its size. */
  ghost function Value(s: string): nat
    requires AllDigits(s)
  {
    if s == [] then 0 else 10 * Value(s[..|s| - 1]) + DigitValue(s[|s| - 1])
  }

  /** std::to_string of an unsigned number. */
  function ToDecimal(n: nat): (s: string)
    ensures IsUnsignedDecimal(s)
  {
    var digit := [('0' as int + n % 10) as char];
    if n < 10 then digit else ToDecimal(n / 10) + digit
  }

  lemma {:induction false} PrintedValue(n: nat)
    ensures Value(ToDecimal(n)) == n
  {
    if n >= 10 {
      PrintedValue(n / 10);
      var s := ToDecimal(n);
      assert s[..|s| - 1] == ToDecimal(n / 10);
    } else {
      assert ToDecimal(n)[..0] == "";
    }
  }

  lemma PrintingIsInjective(m: nat, n: nat)
    requires ToDecimal(m) == ToDecimal(n)
    ensures m == n
  {
    PrintedValue(m);
    PrintedValue(n);
  }

  lemma {:induction false} PrefixValueIsSmaller(s: string, i: nat)
    requires AllDigits(s) && i <= |s|
    ensures Value(s[..i]) <= Value(s)
    decreases |s|
  {
    if i == |s| {
      assert s[..i] == s;
    } else {
      var t := s[..|s| - 1];
      PrefixValueIsSmaller(t, i);
      assert t[..i] == s[..i];
    }
  }

  /** Digits stand for their places in the usual order, and the base is ten. */
  lemma DigitsAreDecimal(d: nat)
    requires d < 10
    ensures IsDigit("0123456789"[d]) && DigitValue("0123456789"[d]) == d
    ensures ToDecimal(d) == ["0123456789"[d]] && ToDecimal(10 + d) == ['1', "0123456789"[d]]
  {
    assert ToDecimal((10 + d) / 10) == "1";
  }

  /** What a sequence field means: a non-empty digit string that fits 64 bits. */
  ghost function Parsed(s: string): Option<uint64> {
    if IsUnsignedDecimal(s) && Value(s) < TWO64 then Some(Value(s)) else None
  }

  /** What the sender prints for a sequence is what the receiver reads back. */
  lemma PrintedIsParsed(n: uint64)
    ensures Parsed(ToDecimal(n)) == Some(n)
  {
    PrintedValue(n);
  }

  /** The receiver's parser.  `value` is a uint64 throughout, so the guard is also a proof that
      `value * 10 + digit` never overflows. */
  method ParseUnsignedDecimal(s: string) returns (out: Option<uint64>)
    ensures out == Parsed(s)
  {
    if !IsUnsignedDecimal(s) {
      return None;
    }
    var value: uint64 := 0;
    var i := 0;
    while i < |s|
      invariant i <= |s|
      invariant value == Value(s[..i])
    {
      var digit := DigitValue(s[i]);
      assert s[..i + 1][..i] == s[..i];
      if value > (MAX64 - digit) / 10 {
        PrefixValueIsSmaller(s, i + 1);
        return None;
      }
      value := value * 10 + digit;
      i := i + 1;
    }
    assert s[..|s|] == s;
    return Some(value);
  }
}

module RequestText {
  import opened Decimal

  /** One length-prefixed field of the digest. */
  function Field(data: string): string {
    ToDecimal(|data|) + ":" + data + "|"
  }

  function OrderedRequestDigest(rpc: string, actorKey: string, payload: string): string {
    Field(rpc) + Field(actorKey) + Field(payload)
  }

  /** The length prefix ends at the first ':', so a field can be split off in one way only. */
  lemma FieldSplitsOneWay(a: string, x: string, b: string, y: string)
    requires Field(a) + x == Field(b) + y
    ensures a == b && x == y
  {
    var m, n := ToDecimal(|a|), ToDecimal(|b|);
    var s, t := Field(a) + x, Field(b) + y;
    assert s[|m|] == ':' && t[|n|] == ':';
    assert forall i | 0 <= i < |m| :: s[i] == m[i];
    assert forall i | 0 <= i < |n| :: t[i] == n[i];
    assert m == s[..|m|] && n == t[..|n|];
    PrintingIsInjective(|a|, |b|);
    assert a == s[|m| + 1..|m| + 1 + |a|] && b == t[|n| + 1..|n| + 1 + |b|];
    assert x == s[|m| + |a| + 2..] && y == t[|n| + |b| + 2..];
  }

  lemma DigestIsInjective(rpc: string, key: string, payload: string, rpc': string, key': string, payload': string)
    requires OrderedRequestDigest(rpc, key, payload) == OrderedRequestDigest(rpc', key', payload')
    ensures rpc == rpc' && key == key' && payload == payload'
  {
    var d := OrderedRequestDigest(rpc, key, payload);
    assert d == Field(rpc) + (Field(key) + Field(payload));
    assert d == Field(rpc') + (Field(key') + Field(payload'));
    FieldSplitsOneWay(rpc, Field(key) + Field(payload), rpc', Field(key') + Field(payload'));
    FieldSplitsOneWay(key, Field(payload), key', Field(payload'));
    assert Field(payload) == Field(payload) + "" && Field(payload') == Field(payload') + "";
    FieldSplitsOneWay(payload, "", payload', "");
  }

  /** Request ids: three grant fields, the process-wide session number and the sequence. */
  function RequestId(producerId: string, producerEpoch: string, receiverEpoch: string, instance: nat,
      sequence: nat): string
  {
    producerId + "/" + producerEpoch + "/" + receiverEpoch + "/" + ToDecimal(instance) + "/" + ToDecimal(sequence)
  }

  lemma LastComponentSplitsOneWay(x: string, d: string, y: string, e: string)
    requires AllDigits(d) && AllDigits(e)
    requires x + "/" + d == y + "/" + e
    ensures x == y && d == e
  {
    var s, t := x + "/" + d, y + "/" + e;
    assert s[|x|] == '/' && t[|y|] == '/';
    assert forall i | 0 <= i < |d| :: s[|x| + 1 + i] == d[i];
    assert forall i | 0 <= i < |e| :: t[|y| + 1 + i] == e[i];
    assert x == s[..|x|] && y == t[..|y|];
    assert d == s[|x| + 1..] && e == t[|y| + 1..];
  }

  /** Whatever the grant fields contain (they may contain '/'), a request id determines the session
      and the sequence it was made for. */
  lemma RequestIdIsUnique(p: string, pe: string, re: string, i: nat, n: nat, p': string, pe': string, re': string,
      i': nat, n': nat)
    requires RequestId(p, pe, re, i, n) == RequestId(p', pe', re', i', n')
    ensures i == i' && n == n'
  {
    var x := p + "/" + pe + "/" + re;
    var x' := p' + "/" + pe' + "/" + re';
    LastComponentSplitsOneWay(x + "/" + ToDecimal(i), ToDecimal(n), x' + "/" + ToDecimal(i'), ToDecimal(n'));
    LastComponentSplitsOneWay(x, ToDecimal(i), x', ToDecimal(i'));
    PrintingIsInjective(i, i');
    PrintingIsInjective(n, n');
  }
}
