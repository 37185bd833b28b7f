/** base58btc text: the two hand-written encoders, the standard decoder that inverts them,
    and the did:key identifiers built on top. */
module Base58 {
  import opened Wrappers

  type Byte = x: nat | x < 256

  // ---- numbers in a base ---------------------------------------------------------

  predicate Below(base: nat, ds: seq<nat>) { forall i | 0 <= i < |ds| :: ds[i] < base }

  function NumOf(base: nat, ds: seq<nat>): nat {
    if ds == [] then 0 else NumOf(base, ds[..|ds| - 1]) * base + ds[|ds| - 1]
  }

  /** The digits of `n`, most significant first, without leading zeros. */
  function DigitsOf(base: nat, n: nat): (ds: seq<nat>)
    requires base >= 2
    ensures Below(base, ds)
    ensures ds != [] ==> ds[0] != 0
    ensures n != 0 <==> ds != []
    decreases n
  {
    if n == 0 then [] else
      assert n / base < n by { Quotient(n, base); }
      DigitsOf(base, n / base) + [n % base]
  }

  lemma Quotient(n: nat, base: nat)
    requires n > 0 && base >= 2
    ensures n / base < n
    ensures n / base == 0 ==> n % base == n
  {
    assert n == n / base * base + n % base;
    assert n / base * (base - 2) >= 0;
  }

  function Zeros(n: nat): (z: seq<nat>)
    ensures |z| == n && forall d <- z :: d == 0
  {
    seq(n, i => 0)
  }

  function LeadingZeros(ds: seq<nat>): (n: nat)
    ensures n <= |ds| && (forall i | 0 <= i < n :: ds[i] == 0) && (n < |ds| ==> ds[n] != 0)
  {
    if ds == [] || ds[0] != 0 then 0 else 1 + LeadingZeros(ds[1..])
  }

  lemma NumOfSplit(base: nat, front: seq<nat>, last: nat)
    ensures NumOf(base, front + [last]) == NumOf(base, front) * base + last
  {
    assert (front + [last])[..|front|] == front;
  }

  lemma Division(n: nat, base: nat) returns (q: nat, r: nat)
    requires base >= 2 && n > 0
    ensures q == n / base && r == n % base && n == q * base + r && q < n
  {
    q, r := n / base, n % base;
    Quotient(n, base);
  }

  lemma {:induction false} NumOfDigits(base: nat, n: nat)
    requires base >= 2
    ensures NumOf(base, DigitsOf(base, n)) == n
    decreases n
  {
    if n > 0 {
      var q, r := Division(n, base);
      NumOfDigits(base, q);
      LastDigit(base, n, q, r);
    }
  }

  lemma LastDigit(base: nat, n: nat, q: nat, r: nat)
    requires base >= 2 && n > 0 && q == n / base && r == n % base
    ensures NumOf(base, DigitsOf(base, n)) == NumOf(base, DigitsOf(base, q)) * base + r
  {
    NumOfSplit(base, DigitsOf(base, q), r);
  }

  lemma DivMod(q: nat, r: nat, base: nat)
    requires r < base
    ensures (q * base + r) / base == q && (q * base + r) % base == r
  {
    var n := q * base + r;
    assert n == n / base * base + n % base;
    assert (n / base - q) * base == r - n % base;
    SmallMultiple(n / base - q, base);
  }

  lemma SmallMultiple(k: int, base: int)
    requires -base < k * base < base
    ensures k == 0
  {
  }

  lemma {:induction false} DigitsOfNum(base: nat, ds: seq<nat>)
    requires base >= 2 && Below(base, ds) && (ds != [] ==> ds[0] != 0)
    ensures DigitsOf(base, NumOf(base, ds)) == ds
  {
    if ds != [] {
      var front, last := ds[..|ds| - 1], ds[|ds| - 1];
      DigitsOfNum(base, front);
      DivMod(NumOf(base, front), last, base);
      if front == [] { assert NumOf(base, ds) == last; }
      else { assert front[0] == ds[0]; }
    }
  }

  lemma {:induction false} LeadingZerosDoNotCount(base: nat, n: nat, ds: seq<nat>)
    ensures NumOf(base, Zeros(n) + ds) == NumOf(base, ds)
    decreases n, |ds|
  {
    var all := Zeros(n) + ds;
    if ds != [] {
      LeadingZerosDoNotCount(base, n, ds[..|ds| - 1]);
      assert all[..|all| - 1] == Zeros(n) + ds[..|ds| - 1];
    } else if n > 0 {
      LeadingZerosDoNotCount(base, n - 1, []);
      assert all[..|all| - 1] == Zeros(n - 1) + [];
    }
  }

  lemma SplitZeros(ds: seq<nat>)
    ensures ds == Zeros(LeadingZeros(ds)) + ds[LeadingZeros(ds)..]
  {
  }

  /** Re-expressed in another base with its leading zeros kept, a digit string comes back. */
  function Rebase(from: nat, to: nat, ds: seq<nat>): seq<nat>
    requires to >= 2
  {
    Zeros(LeadingZeros(ds)) + DigitsOf(to, NumOf(from, ds))
  }

  lemma {:induction false} LeadingOf(n: nat, ds: seq<nat>)
    requires ds != [] ==> ds[0] != 0
    ensures LeadingZeros(Zeros(n) + ds) == n
  {
    var all := Zeros(n) + ds;
    if n > 0 {
      LeadingOf(n - 1, ds);
      assert all[1..] == Zeros(n - 1) + ds;
    } else {
      assert all == ds;
    }
  }

  lemma RebaseIff(from: nat, to: nat, ds: seq<nat>, es: seq<nat>)
    requires from >= 2 && to >= 2 && Below(to, es)
    ensures es == Rebase(from, to, ds)
      <==> NumOf(to, es) == NumOf(from, ds) && LeadingZeros(es) == LeadingZeros(ds)
  {
    var n, num := LeadingZeros(ds), NumOf(from, ds);
    LeadingOf(n, DigitsOf(to, num));
    LeadingZerosDoNotCount(to, n, DigitsOf(to, num));
    NumOfDigits(to, num);
    if LeadingZeros(es) == n && NumOf(to, es) == num {
      SplitZeros(es);
      LeadingZerosDoNotCount(to, n, es[n..]);
      DigitsOfNum(to, es[n..]);
    }
  }

  lemma RebaseRoundTrip(from: nat, to: nat, ds: seq<nat>)
    requires from >= 2 && to >= 2 && Below(from, ds)
    ensures Rebase(to, from, Rebase(from, to, ds)) == ds
  {
    var n := LeadingZeros(ds);
    var rest, num := ds[n..], NumOf(from, ds);
    SplitZeros(ds);
    LeadingZerosDoNotCount(from, n, rest);
    LeadingOf(n, DigitsOf(to, num));
    LeadingZerosDoNotCount(to, n, DigitsOf(to, num));
    NumOfDigits(to, num);
    DigitsOfNum(from, rest);
  }

  // ---- the alphabet --------------------------------------------------------------

  /** The 58 symbols in order, run by run: `0`, `I`, `O` and `l` are left out. */
  function Symbol(d: nat): char
    requires d < 58
  {
    if d < 9 then "123456789"[d]
    else if d < 17 then "ABCDEFGH"[d - 9]
    else if d < 22 then "JKLMN"[d - 17]
    else if d < 33 then "PQRSTUVWXYZ"[d - 22]
    else if d < 44 then "abcdefghijk"[d - 33]
    else "mnopqrstuvwxyz"[d - 44]
  }

  /** The digit a symbol stands for. */
  function DigitOf(c: char): Option<nat> {
    var n := c as int;
    if '1' <= c <= '9' then Some(n - 49)
    else if 'A' <= c <= 'H' then Some(n - 56)
    else if 'J' <= c <= 'N' then Some(n - 57)
    else if 'P' <= c <= 'Z' then Some(n - 58)
    else if 'a' <= c <= 'k' then Some(n - 64)
    else if 'm' <= c <= 'z' then Some(n - 65)
    else None
  }

  lemma SymbolRoundTrip(d: nat)
    requires d < 58
    ensures DigitOf(Symbol(d)) == Some(d)
  {
  }

  lemma DigitRoundTrip(c: char)
    ensures DigitOf(c).Some? ==> DigitOf(c).value < 58 && Symbol(DigitOf(c).value) == c
  {
    if DigitOf(c).Some? { SymbolRoundTrip(DigitOf(c).value); }
  }

  function Symbols(ds: seq<nat>): (s: string)
    requires Below(58, ds)
    ensures |s| == |ds|
  {
    seq(|ds|, i requires 0 <= i < |ds| => Symbol(ds[i]))
  }

  predicate InAlphabet(s: string) { forall i | 0 <= i < |s| :: DigitOf(s[i]).Some? }

  function DigitsIn(s: string): (ds: seq<nat>)
    requires InAlphabet(s)
    ensures |ds| == |s|
  {
    seq(|s|, i requires 0 <= i < |s| => DigitOf(s[i]).value)
  }

  lemma SymbolsRoundTrip(ds: seq<nat>)
    requires Below(58, ds)
    ensures InAlphabet(Symbols(ds)) && DigitsIn(Symbols(ds)) == ds
  {
    forall i | 0 <= i < |ds| ensures DigitOf(Symbols(ds)[i]) == Some(ds[i]) { SymbolRoundTrip(ds[i]); }
  }

  lemma DigitsInRoundTrip(s: string)
    requires InAlphabet(s)
    ensures Below(58, DigitsIn(s)) && Symbols(DigitsIn(s)) == s
  {
    forall i | 0 <= i < |s| ensures DigitsIn(s)[i] < 58 && Symbol(DigitsIn(s)[i]) == s[i] { DigitRoundTrip(s[i]); }
  }

  // ---- text and bytes ------------------------------------------------------------

  function Encode(data: seq<Byte>): string { Symbols(Rebase(256, 58, data)) }

  /** The standard decoder: anything outside the alphabet is malformed. */
  function Decode(s: string): Option<seq<Byte>> {
    if InAlphabet(s) then Some(Rebase(58, 256, DigitsIn(s))) else None
  }

  /** The decoder inverts the encoding of every byte string, leading zeros included. */
  lemma DecodeInvertsEncode(data: seq<Byte>)
    ensures Decode(Encode(data)) == Some(data)
  {
    SymbolsRoundTrip(Rebase(256, 58, data));
    RebaseRoundTrip(256, 58, data);
  }

  /** Every well-formed text is the encoding of what it decodes to: no two texts share bytes. */
  lemma EncodeInvertsDecode(s: string)
    requires Decode(s).Some?
    ensures Encode(Decode(s).value) == s
  {
    DigitsInRoundTrip(s);
    RebaseRoundTrip(58, 256, DigitsIn(s));
  }

  const ALPHABET: string :=
    "123456789" + "ABCDEFGH" + "JKLMN" + "PQRSTUVWXYZ" + "abcdefghijk" + "mnopqrstuvwxyz"

  /** `text` writes the base-58 digits `ds` in the alphabet. */
  predicate Spells(text: string, ds: seq<nat>) {
    |text| == |ds| && forall i | 0 <= i < |ds| :: ds[i] < 58 && text[i] == ALPHABET[ds[i]]
  }

  lemma SymbolIs(d: nat)
    requires d < 58
    ensures Symbol(d) == ALPHABET[d]
  {
  }

  lemma SpelledBySymbols(text: string, ds: seq<nat>)
    ensures Spells(text, ds) <==> Below(58, ds) && text == Symbols(ds)
  {
    if Below(58, ds) {
      forall i | 0 <= i < |ds| ensures Symbols(ds)[i] == ALPHABET[ds[i]] { SymbolIs(ds[i]); }
      assert Spells(text, ds) <==> text == Symbols(ds);
    } else {
      assert !Spells(text, ds);
    }
  }

  /** The encoding is the one text whose digits have the value of the bytes and that starts
      with exactly as many ones as the bytes start with zeros. */
  lemma EncodingIff(data: seq<Byte>, text: string, ds: seq<nat>)
    requires Spells(text, ds)
    ensures text == Encode(data)
      <==> NumOf(58, ds) == NumOf(256, data) && LeadingZeros(ds) == LeadingZeros(data)
  {
    hide Symbol, DigitOf, Symbols, DigitsIn;
    SpelledBySymbols(text, ds);
    SymbolsRoundTrip(ds);
    SymbolsRoundTrip(Rebase(256, 58, data));
    RebaseIff(256, 58, data, ds);
  }

  /** Every encoding is spelled in the alphabet. */
  lemma EncodingSpelled(data: seq<Byte>) returns (ds: seq<nat>)
    ensures Spells(Encode(data), ds)
  {
    ds := Rebase(256, 58, data);
    SpelledBySymbols(Encode(data), ds);
  }

  lemma KnownValues()
    ensures NumOf(58, [0, 0, 0, 1, 39]) == 97 == NumOf(256, [0, 0, 0, 0x61])
    ensures LeadingZeros([0, 0, 0, 1, 39]) == 3 == LeadingZeros([0, 0, 0, 0x61])
  {
    LeadingZerosDoNotCount(58, 3, [1, 39]);
    LeadingZerosDoNotCount(256, 3, [0x61]);
    assert Zeros(3) + [1, 39] == [0, 0, 0, 1, 39] && Zeros(3) + [0x61] == [0, 0, 0, 0x61];
    NumOfSplit(58, [1], 39);
    assert [1] + [39] == [1, 39];
    NumOfSplit(58, [], 1);
    NumOfSplit(256, [], 0x61);
    assert [] + [1] == [1] && [] + [0x61] == [0x61];
    LeadingOf(3, [1, 39]);
    LeadingOf(3, [0x61]);
  }

  /** The known answer of the clients' own tests: three zero bytes, then `a`. */
  lemma KnownText()
    ensures Encode([0, 0, 0, 0x61]) == "1112g"
  {
    KnownValues();
    SymbolIs(0);
    SymbolIs(1);
    SymbolIs(39);
    assert Symbol(0) == '1' && Symbol(1) == '2' && Symbol(39) == 'g';
    assert Spells("1112g", [0, 0, 0, 1, 39]);
    EncodingIff([0, 0, 0, 0x61], "1112g", [0, 0, 0, 1, 39]);
  }

  // ---- the Go client -------------------------------------------------------------

  method CountLeading(data: seq<Byte>) returns (leading: nat)
    ensures leading == LeadingZeros(data)
  {
    leading := 0;
    while leading < |data| && data[leading] == 0
      invariant leading <= |data|
      invariant LeadingZeros(data) == leading + LeadingZeros(data[leading..])
    {
      assert data[leading..][1..] == data[leading + 1..];
      leading := leading + 1;
    }
  }

  function Reversed(s: string): (r: string)
    ensures |r| == |s| && forall i | 0 <= i < |s| :: r[i] == s[|s| - 1 - i]
  {
    seq(|s|, i requires 0 <= i < |s| => s[|s| - 1 - i])
  }

  method ReverseInPlace(a: array<char>)
    modifies a
    ensures a[..] == Reversed(old(a[..]))
  {
    var i, j := 0, a.Length - 1;
    while i < j
      invariant 0 <= i <= a.Length && j == a.Length - 1 - i
      invariant forall k :: 0 <= k < i || j < k < a.Length ==> a[k] == old(a[a.Length - 1 - k])
      invariant forall k | i <= k <= j :: a[k] == old(a[k])
    {
      a[i], a[j] := a[j], a[i];
      i, j := i + 1, j - 1;
    }
  }

  lemma DigitAppended(out: string, num: nat)
    requires num > 0
    ensures Reversed(out + [Symbol(num % 58)]) == [Symbol(num % 58)] + Reversed(out)
    ensures Symbols(DigitsOf(58, num)) == Symbols(DigitsOf(58, num / 58)) + [Symbol(num % 58)]
  {
  }

  /** The digits come out least significant first, with the leading ones behind them. */
  method DigitsBackwards(num: nat) returns (out: string)
    ensures Reversed(out) == Symbols(DigitsOf(58, num))
  {
    out := [];
    var rest := num;
    while rest > 0
      invariant Symbols(DigitsOf(58, rest)) + Reversed(out) == Symbols(DigitsOf(58, num))
      decreases rest
    {
      DigitAppended(out, rest);
      out := out + [Symbol(rest % 58)];
      rest := rest / 58;
    }
  }

  lemma SymbolsConcat(a: seq<nat>, b: seq<nat>)
    requires Below(58, a) && Below(58, b)
    ensures Below(58, a + b) && Symbols(a + b) == Symbols(a) + Symbols(b)
  {
  }

  lemma OnesAreZeros(ones: string)
    requires forall i | 0 <= i < |ones| :: ones[i] == '1'
    ensures Symbols(Zeros(|ones|)) == Reversed(ones)
  {
    assert Symbol(0) == '1';
    var zeros := Symbols(Zeros(|ones|));
    forall i | 0 <= i < |ones| ensures zeros[i] == Reversed(ones)[i] { assert Zeros(|ones|)[i] == 0; }
  }

  lemma EncodedBackwards(data: seq<Byte>, digits: string, ones: string)
    requires Reversed(digits) == Symbols(DigitsOf(58, NumOf(256, data)))
    requires |ones| == LeadingZeros(data) && forall i | 0 <= i < |ones| :: ones[i] == '1'
    ensures Reversed(digits + ones) == Encode(data)
  {
    assert Reversed(digits + ones) == Reversed(ones) + Reversed(digits);
    OnesAreZeros(ones);
    SymbolsConcat(Zeros(|ones|), DigitsOf(58, NumOf(256, data)));
  }

  method GoEncode(data: seq<Byte>) returns (text: string)
    ensures text == Encode(data)
  {
    var leading := CountLeading(data);
    var out := DigitsBackwards(NumOf(256, data));
    ghost var digits := out;
    var i := 0;
    while i < leading
      invariant i <= leading && |out| == |digits| + i && out[..|digits|] == digits
      invariant forall k | |digits| <= k < |out| :: out[k] == '1'
    {
      out := out + [Symbol(0)];
      i := i + 1;
    }
    EncodedBackwards(data, digits, out[|digits|..]);
    assert out == digits + out[|digits|..];
    var buffer := new char[|out|](k requires 0 <= k < |out| => out[k]);
    assert buffer[..] == out;
    ReverseInPlace(buffer);
    text := buffer[..];
  }

  // ---- the Python client ---------------------------------------------------------

  method PythonEncode(data: seq<Byte>) returns (text: string)
    ensures text == Encode(data)
  {
    var n := CountLeading(data);
    var digits := DigitsBackwards(NumOf(256, data));
    var ones := seq(n, i => '1');
    EncodedBackwards(data, digits, ones);
    text := Reversed(digits + ones);
  }

  // ---- did:key -------------------------------------------------------------------

  const DID_KEY: string := "did:key:"

  datatype DidError = UnsupportedMethod | MalformedDid | BadKey

  datatype KeyResult = Key(bytes: seq<Byte>) | Fail(error: DidError)

  function DidKey(pk: seq<Byte>): Option<string> {
    if |pk| == 32 then Some(DID_KEY + "z" + Encode([0xed, 0x01] + pk)) else None
  }

  /** `onCurve` says which 32 bytes are a public key. */
  function DecodeDidKey(fingerprint: string, onCurve: seq<Byte> -> bool): KeyResult {
    if fingerprint == [] || fingerprint[0] != 'z' then Fail(MalformedDid)
    else match Decode(fingerprint[1..])
      case None => Fail(MalformedDid)
      case Some(bytes) =>
        if |bytes| != 34 then Fail(MalformedDid)
        else if bytes[0] != 0xed || bytes[1] != 0x01 then Fail(UnsupportedMethod)
        else if onCurve(bytes[2..]) then Key(bytes[2..])
        else Fail(BadKey)
  }

  function Resolve(did: string, onCurve: seq<Byte> -> bool): KeyResult {
    if |did| < 8 || did[..8] != DID_KEY then Fail(UnsupportedMethod) else DecodeDidKey(did[8..], onCurve)
  }

  lemma ResolveText(did: string, text: string, bytes: seq<Byte>, onCurve: seq<Byte> -> bool)
    requires did == DID_KEY + "z" + text && Decode(text) == Some(bytes)
    requires |bytes| == 34 && bytes[0] == 0xed && bytes[1] == 0x01 && onCurve(bytes[2..])
    ensures Resolve(did, onCurve) == Key(bytes[2..])
  {
    assert did[..8] == DID_KEY && did[8..] == "z" + text && did[8..][1..] == text;
  }

  lemma TextOfResolved(did: string, pk: seq<Byte>, onCurve: seq<Byte> -> bool) returns (text: string)
    requires Resolve(did, onCurve) == Key(pk)
    ensures did == DID_KEY + "z" + text && Decode(text) == Some([0xed, 0x01] + pk)
  {
    text := did[8..][1..];
    assert did == did[..8] + ([did[8]] + text);
    var bytes := Decode(text).value;
    assert bytes == [0xed, 0x01] + bytes[2..];
  }

  /** A key resolves from its identifier, and from no other: each key has one did:key. */
  lemma DidKeyRoundTrip(did: string, pk: seq<Byte>, onCurve: seq<Byte> -> bool)
    requires |pk| == 32 && onCurve(pk)
    ensures Resolve(did, onCurve) == Key(pk) <==> DidKey(pk) == Some(did)
  {
    var bytes: seq<Byte> := [0xed, 0x01] + pk;
    if DidKey(pk) == Some(did) {
      DecodeInvertsEncode(bytes);
      assert bytes[2..] == pk;
      ResolveText(did, Encode(bytes), bytes, onCurve);
    }
    if Resolve(did, onCurve) == Key(pk) {
      var text := TextOfResolved(did, pk, onCurve);
      EncodeInvertsDecode(text);
    }
  }

  /** Which identifiers resolve: those that spell the two bytes that announce an Ed25519
      key, then a key. */
  lemma ResolvesIff(did: string, text: string, bytes: seq<Byte>, pk: seq<Byte>, onCurve: seq<Byte> -> bool)
    requires did == "did:key:z" + text && Decode(text) == Some(bytes)
    ensures Resolve(did, onCurve) == Key(pk) <==> bytes == [0xed, 0x01] + pk && |pk| == 32 && onCurve(pk)
  {
    assert did[..8] == DID_KEY && did[8..] == "z" + text && did[8..][1..] == text;
    if |bytes| >= 2 { assert bytes == [bytes[0], bytes[1]] + bytes[2..]; }
  }

  /** Why the others do not. */
  lemma ResolveFails(did: string, text: string, onCurve: seq<Byte> -> bool)
    requires did == "did:key:z" + text
    ensures Resolve(did, onCurve) == Fail(MalformedDid) <==> Decode(text) == None || |Decode(text).value| != 34
    ensures Resolve(did, onCurve) == Fail(UnsupportedMethod)
      <==> Decode(text).Some? && |Decode(text).value| == 34 && Decode(text).value[..2] != [0xed, 0x01]
  {
    assert did[..8] == DID_KEY && did[8..] == "z" + text && did[8..][1..] == text;
  }

  lemma DidKeyInjective(a: seq<Byte>, b: seq<Byte>)
    requires |a| == |b| == 32
    ensures DidKey(a) == DidKey(b) <==> a == b
  {
    if DidKey(a) == DidKey(b) {
      DidKeyRoundTrip(DidKey(a).value, a, k => true);
      DidKeyRoundTrip(DidKey(a).value, b, k => true);
    }
  }
}