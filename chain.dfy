/** The option-chain payload of the NSE index endpoint, and the first step of
    `processData`: keep the entries that have both a call and a put side, then
    keep the first such entry for every strike price. */
module Chain {
  import opened Wrappers
  import opened Seqs

  /** One side of a strike: the call (CE) or the put (PE) contract. */
  datatype Side = Side(openInterest: int, changeinOpenInterest: int, lastPrice: real)

  /** One element of `records.data`: a strike with an optional call and put side. */
  datatype Entry = Entry(strikePrice: int, ce: Option<Side>, pe: Option<Side>)

  /** An entry that has both sides, as every row after the first filter does. */
  datatype Quote = Quote(strikePrice: int, ce: Side, pe: Side)

  /** `records`: the entries, the index price and the list of strike prices.
      `data` and `strikePrices` may be missing from the payload. */
  datatype Records = Records(data: Option<seq<Entry>>, underlyingValue: real, strikePrices: Option<seq<int>>)

  /** The whole response body; `records` may be missing. */
  datatype Payload = Payload(records: Option<Records>)

  /** `item.CE && item.PE`: both sides are present. */
  predicate Complete(e: Entry)
  {
    e.ce.Some? && e.pe.Some?
  }

  function AsQuote(e: Entry): (q: Quote)
    requires Complete(e)
    ensures q.strikePrice == e.strikePrice && Some(q.ce) == e.ce && Some(q.pe) == e.pe
  {
    Quote(e.strikePrice, e.ce.value, e.pe.value)
  }

  /** The first filter: the complete entries, in input order. */
  function CompleteQuotes(data: seq<Entry>): (r: seq<Quote>)
    ensures |r| <= |data|
  {
    if data == [] then []
    else (if Complete(data[0]) then [AsQuote(data[0])] else []) + CompleteQuotes(data[1..])
  }

  /** The first filter keeps exactly the complete entries. */
  lemma {:induction false} CompleteQuotesMembers(data: seq<Entry>)
    ensures forall e :: e in data && Complete(e) ==> AsQuote(e) in CompleteQuotes(data)
    ensures forall q :: q in CompleteQuotes(data) ==> exists e :: e in data && Complete(e) && AsQuote(e) == q
  {
    if data != [] {
      CompleteQuotesMembers(data[1..]);
      assert forall e :: e in data ==> e == data[0] || e in data[1..];
    }
  }

  /** When no entry has both sides, the first filter keeps nothing. */
  lemma {:induction false} NoCompleteEntry(data: seq<Entry>)
    requires forall e :: e in data ==> !Complete(e)
    ensures CompleteQuotes(data) == []
  {
    if data != [] {
      assert data[0] in data;
      NoCompleteEntry(data[1..]);
    }
  }

  /** The filter keeps input order: it maps a concatenation to a concatenation. */
  lemma {:induction false} CompleteQuotesAppend(a: seq<Entry>, b: seq<Entry>)
    ensures CompleteQuotes(a + b) == CompleteQuotes(a) + CompleteQuotes(b)
  {
    if a == [] {
      assert a + b == b;
    } else {
      assert (a + b)[0] == a[0];
      assert (a + b)[1..] == a[1..] + b;
      CompleteQuotesAppend(a[1..], b);
      var head := if Complete(a[0]) then [AsQuote(a[0])] else [];
      calc {
        CompleteQuotes(a + b);
        head + CompleteQuotes(a[1..] + b);
        head + (CompleteQuotes(a[1..]) + CompleteQuotes(b));
        (head + CompleteQuotes(a[1..])) + CompleteQuotes(b);
      }
    }
  }

  /** The strike prices of a sequence of quotes, position by position. */
  function StrikeList(s: seq<Quote>): (r: seq<int>)
    ensures |r| == |s|
    ensures forall k :: 0 <= k < |s| ==> r[k] == s[k].strikePrice
  {
    seq(|s|, k requires 0 <= k < |s| => s[k].strikePrice)
  }

  /** The set of strike prices that occur in `s`. */
  function Strikes(s: seq<Quote>): set<int>
  {
    set q | q in s :: q.strikePrice
  }

  /** The strikes of a concatenation are the strikes of its parts. */
  lemma StrikesAppend(u: seq<Quote>, v: seq<Quote>)
    ensures Strikes(u + v) == Strikes(u) + Strikes(v)
  {
    assert forall q :: q in u + v <==> q in u || q in v;
  }

  /** The set of strikes is the set of elements of the strike list. */
  lemma StrikesAsList(s: seq<Quote>, x: int)
    ensures x in Strikes(s) <==> x in StrikeList(s)
  {
    if x in Strikes(s) {
      var k :| 0 <= k < |s| && s[k].strikePrice == x;
      assert StrikeList(s)[k] == x;
    }
  }

  /** The second filter, as a function: walking left to right with the set of
      strikes seen so far, an entry is kept iff its strike was not seen before. */
  function FirstPerStrike(s: seq<Quote>): seq<Quote>
  {
    if s == [] then []
    else
      var init, q := s[..|s| - 1], s[|s| - 1];
      FirstPerStrike(init) + if q.strikePrice in Strikes(init) then [] else [q]
  }

  /** The second filter as the source runs it: one pass that adds every new strike
      to a set (`seenStrikes`) and drops an entry whose strike is already there. */
  method DropRepeatedStrikes(s: seq<Quote>) returns (r: seq<Quote>)
    ensures r == FirstPerStrike(s)
  {
    var seenStrikes: set<int> := {};
    r := [];
    var i := 0;
    while i < |s|
      invariant 0 <= i <= |s|
      invariant seenStrikes == Strikes(s[..i])
      invariant r == FirstPerStrike(s[..i])
    {
      assert s[..i + 1][..i] == s[..i];
      if s[i].strikePrice !in seenStrikes {
        seenStrikes := seenStrikes + {s[i].strikePrice};
        r := r + [s[i]];
      }
      assert Strikes(s[..i + 1]) == Strikes(s[..i]) + {s[i].strikePrice} by {
        assert s[..i + 1] == s[..i] + [s[i]];
      }
      i := i + 1;
    }
    assert s[..|s|] == s;
  }

  /** Every strike of the input is represented in the output, and no other. */
  lemma {:induction false} FirstPerStrikeKeepsStrikes(s: seq<Quote>)
    ensures Strikes(FirstPerStrike(s)) == Strikes(s)
  {
    if s != [] {
      var init, q := s[..|s| - 1], s[|s| - 1];
      assert s == init + [q];
      FirstPerStrikeKeepsStrikes(init);
      assert Strikes(s) == Strikes(init) + {q.strikePrice};
    }
  }

  /** No two rows share a strike price. */
  predicate DistinctStrikes(s: seq<Quote>)
  {
    forall j, k :: 0 <= j < k < |s| ==> s[j].strikePrice != s[k].strikePrice
  }

  /** After the second filter no two rows share a strike price. */
  lemma {:induction false} FirstPerStrikeDistinct(s: seq<Quote>)
    ensures DistinctStrikes(FirstPerStrike(s))
  {
    if s != [] {
      var init, q := s[..|s| - 1], s[|s| - 1];
      FirstPerStrikeDistinct(init);
      FirstPerStrikeKeepsStrikes(init);
      var r' := FirstPerStrike(init);
      assert forall j :: 0 <= j < |r'| ==> r'[j].strikePrice in Strikes(init);
    }
  }

  /** Every kept row is the first entry of the input with its strike, and kept rows
      appear in the order of those first occurrences. */
  lemma {:induction false} FirstPerStrikeFirst(s: seq<Quote>)
    ensures var r := FirstPerStrike(s);
      && (forall k :: 0 <= k < |r| ==>
            0 <= IndexOf(StrikeList(s), r[k].strikePrice) && s[IndexOf(StrikeList(s), r[k].strikePrice)] == r[k])
      && (forall j, k :: 0 <= j < k < |r| ==>
            IndexOf(StrikeList(s), r[j].strikePrice) < IndexOf(StrikeList(s), r[k].strikePrice))
  {
    if s != [] {
      var init, q := s[..|s| - 1], s[|s| - 1];
      assert s == init + [q];
      FirstPerStrikeFirst(init);
      FirstPerStrikeKeepsStrikes(init);
      var r' := FirstPerStrike(init);
      var r := FirstPerStrike(s);
      assert StrikeList(s) == StrikeList(init) + [q.strikePrice];
      forall k | 0 <= k < |r'|
        ensures IndexOf(StrikeList(s), r'[k].strikePrice) == IndexOf(StrikeList(init), r'[k].strikePrice)
        ensures 0 <= IndexOf(StrikeList(init), r'[k].strikePrice) < |init|
      {
        var x := r'[k].strikePrice;
        StrikesAsList(init, x);
        IndexOfSnoc(StrikeList(init), q.strikePrice, x);
      }
      if q.strikePrice !in Strikes(init) {
        StrikesAsList(init, q.strikePrice);
        IndexOfSnoc(StrikeList(init), q.strikePrice, q.strikePrice);
        assert r == r' + [q];
      }
    }
  }

  /** Dropping an entry whose strike already occurred earlier does not change
      the result of the second filter. */
  lemma {:induction false} FirstPerStrikeSkipsRepeat(x: seq<Quote>, q: Quote, b: seq<Quote>)
    requires q.strikePrice in Strikes(x)
    ensures FirstPerStrike(x + [q] + b) == FirstPerStrike(x + b)
  {
    if b == [] {
      assert x + [q] + b == x + [q];
      assert (x + [q])[..|x|] == x;
      assert x + b == x;
    } else {
      var b', y := b[..|b| - 1], b[|b| - 1];
      FirstPerStrikeSkipsRepeat(x, q, b');
      var u, v := x + [q] + b', x + b';
      assert Strikes(u) == Strikes(v) by {
        StrikesAppend(x + [q], b');
        StrikesAppend(x, [q]);
        StrikesAppend(x, b');
        assert Strikes([q]) == {q.strikePrice};
      }
      var tail := if y.strikePrice in Strikes(u) then [] else [y];
      calc {
        FirstPerStrike(x + [q] + b);
        { assert x + [q] + b == u + [y]; assert (u + [y])[..|u|] == u; }
        FirstPerStrike(u) + tail;
        FirstPerStrike(v) + tail;
        { assert x + b == v + [y]; assert (v + [y])[..|v|] == v; }
        FirstPerStrike(x + b);
      }
    }
  }

  /** The rows the rest of `processData` works on (`allData`). */
  function AllData(data: seq<Entry>): seq<Quote>
  {
    FirstPerStrike(CompleteQuotes(data))
  }

  /** An entry that lacks a side is ignored. */
  lemma IncompleteEntryIgnored(a: seq<Entry>, e: Entry, b: seq<Entry>)
    requires !Complete(e)
    ensures AllData(a + [e] + b) == AllData(a + b)
  {
    assert CompleteQuotes([e]) == [] by {
      assert [e][1..] == [];
    }
    assert CompleteQuotes(a + [e] + b) == CompleteQuotes(a) + CompleteQuotes(b) by {
      CompleteQuotesAppend(a + [e], b);
      CompleteQuotesAppend(a, [e]);
      assert CompleteQuotes(a) + [] == CompleteQuotes(a);
    }
    CompleteQuotesAppend(a, b);
  }

  /** A complete entry whose strike was already seen on an earlier complete
      entry is ignored: only the first occurrence of a strike counts. */
  lemma LaterDuplicateIgnored(a: seq<Entry>, e: Entry, b: seq<Entry>)
    requires exists k :: 0 <= k < |a| && Complete(a[k]) && a[k].strikePrice == e.strikePrice
    ensures AllData(a + [e] + b) == AllData(a + b)
  {
    if !Complete(e) {
      IncompleteEntryIgnored(a, e, b);
    } else {
      var k :| 0 <= k < |a| && Complete(a[k]) && a[k].strikePrice == e.strikePrice;
      var x, y := CompleteQuotes(a), CompleteQuotes(b);
      assert CompleteQuotes([e]) == [AsQuote(e)] by {
        assert [e][1..] == [];
      }
      assert CompleteQuotes(a + [e] + b) == x + [AsQuote(e)] + y by {
        CompleteQuotesAppend(a + [e], b);
        CompleteQuotesAppend(a, [e]);
      }
      assert CompleteQuotes(a + b) == x + y by {
        CompleteQuotesAppend(a, b);
      }
      assert a[k] in a;
      CompleteQuotesMembers(a);
      assert AsQuote(a[k]) in x;
      assert e.strikePrice in Strikes(x);
      FirstPerStrikeSkipsRepeat(x, AsQuote(e), y);
      assert AllData(a + [e] + b) == FirstPerStrike(x + [AsQuote(e)] + y);
      assert AllData(a + b) == FirstPerStrike(x + y);
    }
  }
}
