/** The audit trail of counter-offers a transaction carries in its `external_refs`. */
module Negotiation {
  import opened Decimals
  import opened Money
  import opened Wrappers

  /** One recorded offer: the total it replaced and the total it set. */
  datatype Ref = Offer(from: int, to: int) | Note(text: string)

  datatype Outcome = Updated | InvalidRequest | PreconditionFailed

  const PREFIX := "negotiation_"

  predicate IsHistoryKey(k: string) { PREFIX <= k }

  /** `negotiation_{n:03}`. */
  function HistoryKey(n: nat): string {
    PREFIX + (if n < 1_000 then Digits(n, PaddedWidth(n)) else Decimal(n))
  }

  function PaddedWidth(n: nat): nat { if n < 1_000 then 3 else 0 }

  /** The key is the count in decimal, filled up with zeros to three digits and no further. */
  lemma HistoryKeyText(n: nat, w: nat)
    requires w >= 3
    ensures HistoryKey(n)[..12] == "negotiation_" && Value(HistoryKey(n)[12..]) == Some(n)
    ensures |HistoryKey(n)| >= 15 && (|HistoryKey(n)| > 12 + w <==> n >= Pow10(w))
  {
    assert HistoryKey(n)[..12] == PREFIX;
    assert Pow10(3) == 1_000;
    DecimalLength(n, 2);
    DecimalLength(n, w);
    ValueOfDecimal(n);
    if n < 1_000 {
      ValueOfDigits(n, 3);
      Pow10Monotone(3, w);
    }
  }

  lemma {:induction false} Pow10Monotone(v: nat, w: nat)
    requires v <= w
    ensures Pow10(v) <= Pow10(w)
  {
    if v < w { Pow10Monotone(v, w - 1); }
  }

  lemma HistoryKeyInjective(m: nat, n: nat)
    requires HistoryKey(m) == HistoryKey(n)
    ensures m == n
  {
    assert HistoryKey(m)[|PREFIX|..] == HistoryKey(n)[|PREFIX|..];
    assert Pow10(3) == 1_000;
    DecimalLength(m, 3);
    DecimalLength(n, 3);
    if m < 1_000 && n < 1_000 {
      ValueOfDigits(m, 3);
      ValueOfDigits(n, 3);
    } else {
      DecimalInjective(m, n);
    }
  }

  function HistoryCount(refs: map<string, Ref>): nat { |set k | k in refs && IsHistoryKey(k)| }

  ghost predicate HoldsHistory(refs: map<string, Ref>, offers: seq<Ref>) {
    (forall i | 0 <= i < |offers| :: HistoryKey(i) in refs && refs[HistoryKey(i)] == offers[i])
    && (forall k <- refs | IsHistoryKey(k) :: exists i :: 0 <= i < |offers| && k == HistoryKey(i))
  }

  /** Each offer starts from the total the one before it set. */
  predicate Chained(offers: seq<Ref>) {
    (forall i | 0 <= i < |offers| :: offers[i].Offer?)
    && (forall i | 0 < i < |offers| :: offers[i].from == offers[i - 1].to)
  }

  lemma EarlierKeysDiffer(n: nat)
    ensures forall i | 0 <= i < n :: HistoryKey(i) != HistoryKey(n)
  {
    forall i | 0 <= i < n ensures HistoryKey(i) != HistoryKey(n) {
      if HistoryKey(i) == HistoryKey(n) { HistoryKeyInjective(i, n); }
    }
  }

  function Images(f: nat -> string, n: nat): set<string> { set i: nat | i < n :: f(i) }

  lemma {:induction false} CountImages(f: nat -> string, n: nat)
    requires forall i: nat, j: nat | i < j < n :: f(i) != f(j)
    ensures |Images(f, n)| == n
  {
    if n > 0 {
      CountImages(f, n - 1);
      assert Images(f, n) == Images(f, n - 1) + {f(n - 1)};
    } else {
      assert Images(f, n) == {};
    }
  }

  function KeysBelow(n: nat): set<string> { Images(HistoryKey, n) }

  lemma CountKeysBelow(n: nat)
    ensures |KeysBelow(n)| == n
  {
    forall i: nat, j: nat | i < j < n ensures HistoryKey(i) != HistoryKey(j) { EarlierKeysDiffer(j); }
    CountImages(HistoryKey, n);
  }

  /** Counting the keys already there gives the number of offers so far, so the next key
      is unused. */
  lemma NextKeyIsFresh(refs: map<string, Ref>, offers: seq<Ref>)
    requires HoldsHistory(refs, offers)
    ensures HistoryCount(refs) == |offers| && HistoryKey(|offers|) !in refs
  {
    assert (set k | k in refs && IsHistoryKey(k)) == KeysBelow(|offers|) by {
      forall i | 0 <= i < |offers| ensures IsHistoryKey(HistoryKey(i)) {
      }
    }
    CountKeysBelow(|offers|);
    var next := HistoryKey(|offers|);
    assert IsHistoryKey(next);
    if next in refs {
      var i :| 0 <= i < |offers| && next == HistoryKey(i);
      HistoryKeyInjective(i, |offers|);
    }
  }

  lemma Appended(refs: map<string, Ref>, offers: seq<Ref>, key: string, entry: Ref)
    requires HoldsHistory(refs, offers) && key == HistoryKey(|offers|)
    ensures HoldsHistory(refs[key := entry], offers + [entry])
  {
    var more := offers + [entry];
    EarlierKeysDiffer(|offers|);
    assert more[|offers|] == entry;
    forall k | k in refs[key := entry] && IsHistoryKey(k) && k != key
      ensures exists i :: 0 <= i < |more| && k == HistoryKey(i)
    {
      var i :| 0 <= i < |offers| && k == HistoryKey(i);
      assert i < |more|;
    }
    forall i | 0 <= i < |more|
      ensures HistoryKey(i) in refs[key := entry] && refs[key := entry][HistoryKey(i)] == more[i]
    {
      if i < |offers| { assert HistoryKey(i) in refs && more[i] == offers[i]; }
    }
  }

  /** The trail is complete, unbroken, and ends at the current total. */
  ghost predicate IsTrail(total: Option<int>, refs: map<string, Ref>, offers: seq<Ref>) {
    HoldsHistory(refs, offers) && Chained(offers) && (offers != [] ==> total == Some(offers[|offers| - 1].to))
  }

  function Amount(total: Option<int>): int { if total.Some? then total.value else 0 }

  lemma ChainGrows(total: Option<int>, offers: seq<Ref>, newTotal: int)
    requires Chained(offers) && (offers != [] ==> total == Some(offers[|offers| - 1].to))
    ensures Chained(offers + [Offer(Amount(total), newTotal)])
  {
  }

  lemma KeyGrows(refs: map<string, Ref>, offers: seq<Ref>, key: string, entry: Ref)
    requires HoldsHistory(refs, offers) && key == HistoryKey(HistoryCount(refs))
    ensures key == HistoryKey(|offers|) && key !in refs
    ensures HoldsHistory(refs[key := entry], offers + [entry])
  {
    NextKeyIsFresh(refs, offers);
    Appended(refs, offers, key, entry);
  }

  lemma TrailGrows(total: Option<int>, refs: map<string, Ref>, offers: seq<Ref>, key: string, newTotal: int)
    requires IsTrail(total, refs, offers) && key == HistoryKey(HistoryCount(refs))
    ensures key == HistoryKey(|offers|) && key !in refs
    ensures var entry := Offer(Amount(total), newTotal);
            IsTrail(Some(newTotal), refs[key := entry], offers + [entry])
  {
    KeyGrows(refs, offers, key, Offer(Amount(total), newTotal));
    ChainGrows(total, offers, newTotal);
  }

  class TransactionDoc {
    var total: Option<int>
    var refs: map<string, Ref>
    ghost var offers: seq<Ref>

    ghost predicate Valid()
      reads this
    {
      IsTrail(total, refs, offers)
    }

    function Current(): int
      reads this
    {
      Amount(total)
    }

    constructor (total: Option<int>, refs: map<string, Ref>)
      requires forall k <- refs :: !IsHistoryKey(k)
      ensures Valid() && offers == [] && this.total == total && this.refs == refs
    {
      this.total := total;
      this.refs := refs;
      offers := [];
    }

    /** Sets the total and stamps the offer. */
    method Record(newTotal: int)
      requires Valid()
      modifies this
      ensures Valid() && total == Some(newTotal)
      ensures offers == old(offers) + [Offer(old(Current()), newTotal)]
      ensures forall k <- old(refs) :: k in refs && refs[k] == old(refs)[k]
      ensures refs.Keys == old(refs).Keys + {HistoryKey(|old(offers)|)}
    {
      var prior := match total case Some(v) => v case None => 0;
      var key := HistoryKey(HistoryCount(refs));
      var entry := Offer(prior, newTotal);
      TrailGrows(total, refs, offers, key, newTotal);
      total := Some(newTotal);
      refs := refs[key := entry];
      offers := offers + [entry];
    }

    /** A counter-offer names a total, which wins, or a discount of 0 to 9 000 basis points.
        Anything else, and any transaction no longer quoted, is refused untouched. */
    method Negotiate(quoted: bool, proposed: Option<int>, discountBps: Option<int>) returns (o: Outcome)
      requires Valid()
      modifies this
      ensures Valid()
      ensures o.Updated? <==>
                quoted && (proposed.Some? || discountBps.Some?)
                && (proposed.Some? ==> proposed.value >= 0)
                && (discountBps.Some? ==> 0 <= discountBps.value <= 9_000)
      ensures !o.Updated? ==> offers == old(offers) && total == old(total) && refs == old(refs)
      ensures o.Updated? ==>
                offers == old(offers) + [Offer(old(Current()), Current())]
                && total.Some?
                && (proposed.Some? ==> total == proposed)
                && (proposed.None? ==> total == Some(Negotiated(old(Current()), 10_000 - discountBps.value)))
    {
      if proposed.None? && discountBps.None? { return InvalidRequest; }
      if discountBps.Some? && !(0 <= discountBps.value <= 9_000) { return InvalidRequest; }
      if !quoted { return PreconditionFailed; }
      var newTotal;
      if proposed.Some? {
        if proposed.value < 0 { return InvalidRequest; }
        newTotal := proposed.value;
      } else {
        newTotal := Negotiated(Current(), 10_000 - discountBps.value);
      }
      Record(newTotal);
      o := Updated;
    }
  }
}
