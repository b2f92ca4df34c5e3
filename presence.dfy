/**
 * One turn of the `on_ready` loop without its sleep: pick the source's fetch
 * function, choose three of the values it returns, and write them into the
 * bot's presence text.
 */
module Presence {
  import opened Wrappers
  import opened PyText
  import opened Sources

  /** The f-string of `send_update`: three texts after ⚡, 🚶 and 🐢, separated by " | ". */
  function Joined(fastest: string, average: string, slow: string): string {
    "\U{26A1}" + fastest + " | \U{1F6B6}" + average + " | \U{1F422}" + slow
  }

  /** Where each part sits in the joined text: ⚡, then the three parts with " | 🚶" and " | 🐢" between them. */
  lemma JoinedLayout(fastest: string, average: string, slow: string)
    ensures var j := Joined(fastest, average, slow);
            |j| == |fastest| + |average| + |slow| + 9
            && j[0] == '\U{26A1}' && j[1..1 + |fastest|] == fastest
            && j[1 + |fastest|..|fastest| + 5] == " | \U{1F6B6}"
            && j[|fastest| + 5..|fastest| + 5 + |average|] == average
            && j[|fastest| + 5 + |average|..|j| - |slow|] == " | \U{1F422}"
            && j[|j| - |slow|..] == slow
  {
    var sep1, sep2 := " | \U{1F6B6}", " | \U{1F422}";
    var j := "\U{26A1}" + fastest + sep1 + average + sep2 + slow;
    assert j == "\U{26A1}" + fastest + (sep1 + average + sep2 + slow);
    assert j == ("\U{26A1}" + fastest) + sep1 + (average + sep2 + slow);
    assert j == ("\U{26A1}" + fastest + sep1) + average + (sep2 + slow);
    assert j == ("\U{26A1}" + fastest + sep1 + average) + sep2 + slow;
  }

  /** The presence text `send_update` sets for three tiers. */
  function StatusText(fastest: Num, average: Num, slow: Num): string {
    Joined(Render(fastest), Render(average), Render(slow))
  }

  /** The presence text starts with ⚡ and the fastest price, and ends with the slow price. */
  lemma StatusTextLayout(fastest: Num, average: Num, slow: Num)
    ensures var st, rf, rs := StatusText(fastest, average, slow), Render(fastest), Render(slow);
            |st| == |rf| + |Render(average)| + |rs| + 9
            && st[0] == '\U{26A1}' && st[1..1 + |rf|] == rf
            && st[|st| - |rs|..] == rs
  {
    JoinedLayout(Render(fastest), Render(average), Render(slow));
  }

  /**
   * The values `send_update` is called with: ETH Gas Station's entries 0, 2
   * and 3, every other source's whole tuple.
   */
  function Published(s: Source, t: seq<Num>): (p: seq<Num>)
    requires |t| == TupleLength(s)
    ensures |p| == 3
    ensures forall x :: x in p ==> x in t
  {
    if s == EthGasStation then [t[0], t[2], t[3]] else t
  }

  /** The if/elif dispatch of `on_ready` as written: the final `raise` calls `NotImplemented`. */
  function StatusSourceAsWritten(name: string): (r: Result<Source, Error>)
    ensures r.Success? ==> Name(r.value) == name
    ensures r.Failure? <==> SourceNamed(name).None?
    ensures r.Failure? ==> r.error == NotImplementedCalled
  {
    match SourceNamed(name)
    case Some(s) => Success(s)
    case None => Failure(NotImplementedCalled)
  }

  /** The dispatch of `on_ready` as intended: an unknown source raises 'Unsupported source'. */
  function StatusSource(name: string): (r: Result<Source, Error>)
    ensures r.Success? ==> Name(r.value) == name
    ensures r.Failure? <==> SourceNamed(name).None?
    ensures r.Failure? ==> r.error == UnsupportedSource
  {
    match SourceNamed(name)
    case Some(s) => Success(s)
    case None => Failure(UnsupportedSource)
  }

  /**
   * The part of an `on_ready` iteration after the dispatch: fetch from `s`,
   * then set the presence text or raise. A fetch that returned None is
   * unpacked (Etherscan, GasNow) or indexed (ETH Gas Station) all the same,
   * which raises `TypeError`.
   */
  function SourceUpdate(s: Source, up: Upstream): (r: Result<string, Error>)
    ensures r.Success? ==> StatusCode(s, up) == 200
    ensures Fetch(s, up).Success? && Fetch(s, up).value.None? ==>
              r == Failure(if s == EthGasStation then NoneSubscripted else NoneUnpacked)
  {
    match Fetch(s, up)
    case Failure(e) => Failure(e)
    case Success(None) => Failure(if s == EthGasStation then NoneSubscripted else NoneUnpacked)
    case Success(Some(q)) =>
      var p := Published(s, Tuple(q));
      Success(StatusText(p[0], p[1], p[2]))
  }

  /**
   * One iteration of `on_ready` for the source called `name`, as written: the
   * presence text it sets, or the exception that ends the loop. An unknown
   * name reaches the call of `NotImplemented` and raises `TypeError`.
   */
  function StatusUpdate(name: string, up: Upstream): (r: Result<string, Error>)
    ensures r.Success? ==>
              SourceNamed(name).Some? && StatusCode(SourceNamed(name).value, up) == 200
    ensures SourceNamed(name).None? ==> r == Failure(NotImplementedCalled)
  {
    match StatusSourceAsWritten(name)
    case Failure(e) => Failure(e)
    case Success(s) => SourceUpdate(s, up)
  }

  /** The same iteration with the intended dispatch: an unknown name raises 'Unsupported source'. */
  function StatusUpdateIntended(name: string, up: Upstream): (r: Result<string, Error>)
    ensures r.Success? ==>
              SourceNamed(name).Some? && StatusCode(SourceNamed(name).value, up) == 200
    ensures SourceNamed(name).None? ==> r == Failure(UnsupportedSource)
  {
    match StatusSource(name)
    case Failure(e) => Failure(e)
    case Success(s) => SourceUpdate(s, up)
  }

  /** The iteration as written and as intended agree on known names and differ only in the exception otherwise. */
  lemma StatusUpdateOnUnknownName(name: string, up: Upstream)
    ensures SourceNamed(name).Some? ==> StatusUpdate(name, up) == StatusUpdateIntended(name, up)
    ensures SourceNamed(name).None? ==>
              StatusUpdate(name, up) == Failure(NotImplementedCalled)
              && StatusUpdateIntended(name, up) == Failure(UnsupportedSource)
  {
    UnsupportedSourceRaisesTypeError(name);
  }

  /** Once the dispatch and the fetch have succeeded, the presence shows the quote's tiers. */
  lemma StatusOfQuote(name: string, up: Upstream, s: Source, q: Quote)
    requires SourceNamed(name) == Some(s) && Fetch(s, up) == Success(Some(q))
    ensures StatusUpdate(name, up) == Success(
              if s == EthGasStation then StatusText(Tenths(q.fastest), Tenths(q.average), Tenths(q.safeLow))
              else StatusText(Int(q.fast), Int(q.standard), Int(q.slow)))
  {
    if s == EthGasStation {
      StationPublishes(q);
    } else {
      ThreeTierPublishes(s, q);
    }
  }

  /** ETH Gas Station's presence shows fastest, average and safeLow; `fast` is skipped. */
  lemma StationPublishes(q: Quote)
    requires q.StationQuote?
    ensures Published(EthGasStation, Tuple(q)) == [Tenths(q.fastest), Tenths(q.average), Tenths(q.safeLow)]
  {
  }

  /** The other two sources show their three tiers in the order they were returned. */
  lemma ThreeTierPublishes(s: Source, q: Quote)
    requires s != EthGasStation && q.ThreeTier?
    ensures Published(s, Tuple(q)) == [Int(q.fast), Int(q.standard), Int(q.slow)]
  {
  }

  /** Splitting at a separator whose first character neither head contains recovers both halves. */
  lemma {:induction false} SplitAtSeparator(x: string, y: string, sep: string, x': string, y': string)
    requires |sep| > 0
    requires forall i :: 0 <= i < |x| ==> x[i] != sep[0]
    requires forall i :: 0 <= i < |x'| ==> x'[i] != sep[0]
    requires x + sep + y == x' + sep + y'
    ensures x == x' && y == y'
  {
    var w := x + sep + y;
    assert w[|x|] == sep[0] && w[|x'|] == sep[0];
    assert x == w[..|x|] == x';
    assert y == w[|x| + |sep|..] == y';
  }

  /** The presence text determines the three texts it joins, none of which holds a space. */
  lemma JoinedInjective(ra: string, rb: string, rc: string, ra': string, rb': string, rc': string)
    requires forall i :: 0 <= i < |ra| ==> ra[i] != ' '
    requires forall i :: 0 <= i < |rb| ==> rb[i] != ' '
    requires forall i :: 0 <= i < |ra'| ==> ra'[i] != ' '
    requires forall i :: 0 <= i < |rb'| ==> rb'[i] != ' '
    requires Joined(ra, rb, rc) == Joined(ra', rb', rc')
    ensures ra == ra' && rb == rb' && rc == rc'
  {
    var s1, s2 := " | \U{1F6B6}", " | \U{1F422}";
    var w := "\U{26A1}" + ra + s1 + rb + s2 + rc;
    assert w[1..] == ra + s1 + (rb + s2 + rc);
    var w' := "\U{26A1}" + ra' + s1 + rb' + s2 + rc';
    assert w'[1..] == ra' + s1 + (rb' + s2 + rc');
    SplitAtSeparator(ra, rb + s2 + rc, s1, ra', rb' + s2 + rc');
    SplitAtSeparator(rb, rc, s2, rb', rc');
  }

  /** The presence text determines the three numbers it shows. */
  lemma StatusTextInjective(a: Num, b: Num, c: Num, a': Num, b': Num, c': Num)
    requires StatusText(a, b, c) == StatusText(a', b', c')
    ensures a == a' && b == b' && c == c'
  {
    JoinedInjective(Render(a), Render(b), Render(c), Render(a'), Render(b'), Render(c'));
    RenderInjective(a, a');
    RenderInjective(b, b');
    RenderInjective(c, c');
  }

  /** Both dispatches agree on the three known names; on any other name the code as written raises a TypeError instead. */
  lemma UnsupportedSourceRaisesTypeError(name: string)
    ensures SourceNamed(name).Some? ==> StatusSourceAsWritten(name) == StatusSource(name)
    ensures SourceNamed(name).None? ==>
              StatusSourceAsWritten(name) == Failure(NotImplementedCalled)
              && StatusSource(name) == Failure(UnsupportedSource)
  {
  }

  /** An Etherscan answer read back from its decimal strings shows those three numbers in order. */
  lemma EtherscanStatus(up: Upstream, a: int, b: int, c: int)
    requires up.etherscan == Response(200, EtherscanResult(ShowInt(a), ShowInt(b), ShowInt(c)))
    ensures StatusUpdate("etherscan", up) == Success(StatusText(Int(a), Int(b), Int(c)))
  {
    EtherscanOrder(a, b, c);
  }

  /** A 200 answer from ETH Gas Station shows fastest, average and safeLow as tenths of a gwei. */
  lemma StationStatus(up: Upstream)
    requires up.ethgasstation.statusCode == 200
    ensures var d := up.ethgasstation.json;
            StatusUpdate("ethgasstation", up)
            == Success(StatusText(Tenths(d.fastest), Tenths(d.average), Tenths(d.safeLow)))
  {
  }

  /** The presence is never set from a failed request: the loop raises TypeError on the None instead. */
  lemma FailedFetchSetsNoStatus(s: Source, up: Upstream)
    requires StatusCode(s, up) != 200
    ensures StatusUpdate(Name(s), up)
            == Failure(if s == EthGasStation then NoneSubscripted else NoneUnpacked)
  {
    NoQuoteExactlyOnFailedStatus(s, up);
  }

  /** For Etherscan and GasNow, the presence text determines the whole quote it came from. */
  lemma ThreeTierStatusDeterminesQuote(s: Source, q: Quote, q': Quote)
    requires s != EthGasStation && q.ThreeTier? && q'.ThreeTier?
    requires var p, p' := Published(s, Tuple(q)), Published(s, Tuple(q'));
             StatusText(p[0], p[1], p[2]) == StatusText(p'[0], p'[1], p'[2])
    ensures q == q'
  {
    ThreeTierPublishes(s, q);
    ThreeTierPublishes(s, q');
    StatusTextInjective(Int(q.fast), Int(q.standard), Int(q.slow), Int(q'.fast), Int(q'.standard), Int(q'.slow));
  }

  /** A whole number of gwei, written as tenths, prints with the decimal `.0`. */
  lemma WholeTenths(t: int)
    requires t >= 0 && t % 10 == 0
    ensures Render(Tenths(t)) == ShowNat(t / 10) + ".0"
  {
    assert Abs(t) == t;
    assert [DigitChar(Abs(t) % 10)] == "0";
    assert "" + ShowNat(t / 10) == ShowNat(t / 10);
  }

  lemma StationExampleNumbers()
    ensures Render(Tenths(500)) == "50.0"
    ensures Render(Tenths(300)) == "30.0"
    ensures Render(Tenths(200)) == "20.0"
  {
    WholeTenths(500);
    WholeTenths(300);
    WholeTenths(200);
    assert ShowNat(50) == "50";
    assert ShowNat(30) == "30";
    assert ShowNat(20) == "20";
  }

  lemma StationExampleText()
    ensures StatusText(Tenths(500), Tenths(300), Tenths(200))
            == "\U{26A1}50.0 | \U{1F6B6}30.0 | \U{1F422}20.0"
  {
    StationExampleNumbers();
    assert Joined("50.0", "30.0", "20.0") == "\U{26A1}50.0 | \U{1F6B6}30.0 | \U{1F422}20.0";
  }

  /** A 200 ETH Gas Station answer with raw prices 500, 450, 300 and 200 shows 50.0, 30.0 and 20.0. */
  lemma StationExample(up: Upstream)
    requires up.ethgasstation == Response(200, StationData(500, 450, 300, 200, 0.5, 1.0, 2.0, 5.0))
    ensures StatusUpdate("ethgasstation", up) == Success("\U{26A1}50.0 | \U{1F6B6}30.0 | \U{1F422}20.0")
  {
    StationStatus(up);
    StationExampleText();
  }
}
