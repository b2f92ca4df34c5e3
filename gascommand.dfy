/**
 * The `!gas` command: fetch from the configured source and lay the tiers out
 * as embed fields, slowest first.
 */
module GasCommand {
  import opened Wrappers
  import opened PyText
  import opened Sources
  import opened Presence

  const Title: string := ":fuelpump: Current gas prices"

  datatype Field = Field(name: string, value: string, inline: bool)

  datatype Embed = Embed(title: string, fields: seq<Field>)

  /** The tier each embed field stands for, in the order the fields are added. */
  const Labels: seq<string> := ["Slow", "Average", "Fast", "Quick"]

  /**
   * The source the command fetches from: it tests for ETH Gas Station, then
   * for Etherscan, and takes GasNow for every other name.
   */
  function EmbedSource(name: string): (s: Source)
    ensures SourceNamed(name).Some? ==> s == SourceNamed(name).value
    ensures SourceNamed(name).None? ==> s == GasNow
  {
    if name == "ethgasstation" then EthGasStation
    else if name == "etherscan" then Etherscan
    else GasNow
  }

  /** `round(float(x), 1)`: a price to one decimal, as a float. */
  function RoundToTenth(x: Num): (r: Num)
    ensures r.Tenths? && Value(r) == Value(x)
  {
    match x
    case Int(n) => Tenths(10 * n)
    case Tenths(t) => Tenths(t)
  }

  /** A field value: the price followed by its unit. */
  function GweiText(x: Num): string {
    Render(x) + " Gwei"
  }

  /** A field value is the price text followed by " Gwei". */
  lemma GweiTextLayout(x: Num)
    ensures var g, r := GweiText(x), Render(x);
            |g| == |r| + 5 && g[..|r|] == r && g[|r|..] == " Gwei"
  {
    var g := GweiText(x);
    assert g[..|Render(x)|] == Render(x);
  }

  /** A field value determines the price it shows. */
  lemma GweiTextInjective(x: Num, y: Num)
    requires GweiText(x) == GweiText(y)
    ensures x == y
  {
    GweiTextLayout(x);
    GweiTextLayout(y);
    RenderInjective(x, y);
  }

  /** A field name for ETH Gas Station: the tier and its emoji, then its wait in seconds. */
  function WaitName(head: string, wait: Num): string {
    head + Render(wait) + " seconds"
  }

  /** An ETH Gas Station field name is its heading, the wait's text, then " seconds". */
  lemma WaitNameLayout(head: string, wait: Num)
    ensures var n, r := WaitName(head, wait), Render(wait);
            |n| == |head| + |r| + 8
            && n[..|head|] == head
            && n[|head|..|head| + |r|] == r
            && n[|n| - 8..] == " seconds"
  {
    var n := WaitName(head, wait);
    assert n == head + (Render(wait) + " seconds");
  }

  /** Under one tier's heading, the field name determines the wait it shows. */
  lemma WaitNameInjective(head: string, w: Num, w': Num)
    requires WaitName(head, w) == WaitName(head, w')
    ensures w == w'
  {
    WaitNameLayout(head, w);
    WaitNameLayout(head, w');
    RenderInjective(w, w');
  }

  /** The fields `gas` adds for the tuple `t` that source `s` returned. */
  function Fields(s: Source, t: seq<Num>): (fs: seq<Field>)
    requires |t| == TupleLength(s)
    ensures |fs| == (if s == EthGasStation then 4 else 3)
  {
    if s == EthGasStation then
      [ Field(WaitName("Slow :turtle: | ", t[7]), GweiText(RoundToTenth(t[3])), false),
        Field(WaitName("Average :person_walking: | ", t[6]), GweiText(RoundToTenth(t[2])), false),
        Field(WaitName("Fast :race_car: | ", t[5]), GweiText(RoundToTenth(t[1])), false),
        Field(WaitName("Quick :zap: | ", t[4]), GweiText(RoundToTenth(t[0])), false) ]
    else
      [ Field("Slow   :turtle:", GweiText(t[2]), false),
        Field("Average   :person_walking:", GweiText(t[1]), false),
        Field("Fast   :zap:", GweiText(t[0]), false) ]
  }

  lemma WaitNameExtends(tier: string, head: string, wait: Num)
    requires tier <= head
    ensures tier <= WaitName(head, wait)
  {
    WaitNameLayout(head, wait);
  }

  /**
   * The fields are named Slow, Average, Fast and (ETH Gas Station only) Quick,
   * in that order, and none is inline.
   */
  lemma FieldsInTierOrder(s: Source, t: seq<Num>)
    requires |t| == TupleLength(s)
    ensures var fs := Fields(s, t); forall i :: 0 <= i < |fs| ==> Labels[i] <= fs[i].name && !fs[i].inline
  {
    if s == EthGasStation {
      StationFieldsInTierOrder(t);
    } else {
      ThreeTierFieldsInTierOrder(s, t);
    }
  }

  lemma StationFieldsInTierOrder(t: seq<Num>)
    requires |t| == TupleLength(EthGasStation)
    ensures var fs := Fields(EthGasStation, t); forall i :: 0 <= i < 4 ==> Labels[i] <= fs[i].name && !fs[i].inline
  {
    var fs := Fields(EthGasStation, t);
    forall i | 0 <= i < 4
      ensures Labels[i] <= fs[i].name && !fs[i].inline
    {
      if i == 0 {
        WaitNameExtends("Slow", "Slow :turtle: | ", t[7]);
      } else if i == 1 {
        WaitNameExtends("Average", "Average :person_walking: | ", t[6]);
      } else if i == 2 {
        WaitNameExtends("Fast", "Fast :race_car: | ", t[5]);
      } else {
        WaitNameExtends("Quick", "Quick :zap: | ", t[4]);
      }
    }
  }

  lemma ThreeTierFieldsInTierOrder(s: Source, t: seq<Num>)
    requires s != EthGasStation && |t| == TupleLength(s)
    ensures var fs := Fields(s, t); forall i :: 0 <= i < 3 ==> Labels[i] <= fs[i].name && !fs[i].inline
  {
    var fs := Fields(s, t);
    forall i | 0 <= i < 3
      ensures Labels[i] <= fs[i].name && !fs[i].inline
    {
      if i == 0 {
        assert "Slow" <= "Slow   :turtle:";
      } else if i == 1 {
        assert "Average" <= "Average   :person_walking:";
      } else {
        assert "Fast" <= "Fast   :zap:";
      }
    }
  }

  /**
   * The embed `gas` sends for the source called `name`, or the exception it
   * raises: unpacking a None fetch result raises `TypeError`.
   */
  function GasReply(name: string, up: Upstream): (r: Result<Embed, Error>)
    ensures r.Success? <==> Fetch(EmbedSource(name), up).Success? && Fetch(EmbedSource(name), up).value.Some?
    ensures r.Success? ==> r.value.title == Title
  {
    var s := EmbedSource(name);
    match Fetch(s, up)
    case Failure(e) => Failure(e)
    case Success(None) => Failure(NoneUnpacked)
    case Success(Some(q)) => Success(Embed(Title, Fields(s, Tuple(q))))
  }

  /** ETH Gas Station's four fields name each tier's wait and show its price, slowest first. */
  lemma StationFields(q: Quote)
    requires q.StationQuote?
    ensures Fields(EthGasStation, Tuple(q)) ==
      [ Field("Slow :turtle: | " + ShowInt(q.safeLowWait) + " seconds", GweiText(Tenths(q.safeLow)), false),
        Field("Average :person_walking: | " + ShowInt(q.avgWait) + " seconds", GweiText(Tenths(q.average)), false),
        Field("Fast :race_car: | " + ShowInt(q.fastWait) + " seconds", GweiText(Tenths(q.fast)), false),
        Field("Quick :zap: | " + ShowInt(q.fastestWait) + " seconds", GweiText(Tenths(q.fastest)), false) ]
  {
  }

  /** Etherscan's and GasNow's three fields show slow, standard and fast, with no waits. */
  lemma ThreeTierFields(s: Source, q: Quote)
    requires s != EthGasStation && q.ThreeTier?
    ensures Fields(s, Tuple(q)) ==
      [ Field("Slow   :turtle:", ShowInt(q.slow) + " Gwei", false),
        Field("Average   :person_walking:", ShowInt(q.standard) + " Gwei", false),
        Field("Fast   :zap:", ShowInt(q.fast) + " Gwei", false) ]
  {
  }

  /** A source name other than "etherscan" and "ethgasstation" gets GasNow's answer. */
  lemma OtherNamesUseGasNow(name: string, up: Upstream)
    requires name != "etherscan" && name != "ethgasstation"
    ensures GasReply(name, up) == GasReply("gasnow", up)
  {
  }

  /** A failed request sends no embed: the command raises TypeError. */
  lemma FailedFetchSendsNoEmbed(name: string, up: Upstream)
    requires StatusCode(EmbedSource(name), up) != 200
    ensures GasReply(name, up) == Failure(NoneUnpacked)
  {
    NoQuoteExactlyOnFailedStatus(EmbedSource(name), up);
  }

  /** The presence and the command, run against the same answer, are built from the same quote. */
  lemma SameQuoteForBoth(name: string, up: Upstream, s: Source, q: Quote)
    requires SourceNamed(name) == Some(s) && Fetch(s, up) == Success(Some(q))
    ensures |Tuple(q)| == TupleLength(s)
    ensures var p := Published(s, Tuple(q));
            StatusUpdate(name, up) == Success(StatusText(p[0], p[1], p[2]))
    ensures GasReply(name, up) == Success(Embed(Title, Fields(s, Tuple(q))))
  {
  }

  /**
   * The command and the presence agree: whatever three prices the presence
   * shows after ⚡, 🚶 and 🐢 for a quote, the embed for that quote shows as
   * its last, second and first field.
   */
  lemma EmbedAgreesWithStatus(s: Source, q: Quote, a: Num, b: Num, c: Num)
    requires |Tuple(q)| == TupleLength(s)
    requires var p := Published(s, Tuple(q)); StatusText(p[0], p[1], p[2]) == StatusText(a, b, c)
    ensures var fs := Fields(s, Tuple(q));
            |fs| >= 3
            && fs[0].value == GweiText(c)
            && fs[1].value == GweiText(b)
            && fs[|fs| - 1].value == GweiText(a)
  {
    var t := Tuple(q);
    var p := Published(s, t);
    StatusTextInjective(p[0], p[1], p[2], a, b, c);
    var fs := Fields(s, t);
    if s == EthGasStation {
      assert t[0] == a && t[2] == b && t[3] == c;
      assert RoundToTenth(t[3]) == t[3] && RoundToTenth(t[2]) == t[2] && RoundToTenth(t[0]) == t[0];
      assert fs[0].value == GweiText(t[3]) && fs[1].value == GweiText(t[2]) && fs[3].value == GweiText(t[0]);
    } else {
      assert t[0] == a && t[1] == b && t[2] == c;
      assert fs[0].value == GweiText(t[2]) && fs[1].value == GweiText(t[1]) && fs[2].value == GweiText(t[0]);
    }
  }
}
