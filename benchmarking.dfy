/** nordnm/benchmarking.py: scoring a server from its load and a ping
    probe, and keeping, per (country, short category, protocol), the record
    of the best-scoring server in a dict shared by every comparison.
    Pinging is not modelled: what a ping reports is a Probe, an input. */
module Benchmarking {
  import opened Basics
  import opened Text
  import opened Dicts
  import opened NordApi
  import opened NordNM

  /** The cap on the number of benchmarking processes. */
  const MAX_FD := 512

  // ---------------------------------------------------------------------
  // get_server_score
  // ---------------------------------------------------------------------

  /** What pinging a server reports: the round-trip time (None when there
      was none), the packet loss in percent, and the value the score
      formula takes for this load and rtt. */
  datatype Probe = Probe(rtt: Option<real>, loss: real, formula: real)

  /** The triple (score, load, rtt) that get_server_score returns. */
  datatype Score = Score(score: real, load: int, rtt: Option<real>)

  /** get_server_score: a server at 95% load or more is not pinged and keeps
      score 0 and rtt None; one with 5% loss or more keeps score 0. */
  function ServerScore(server: Server, probe: Probe): Score
  {
    if server.load < 95 then
      Score(if probe.loss < 5.0 then probe.formula else 0.0, server.load, probe.rtt)
    else
      Score(0.0, server.load, None)
  }

  /** The two gates: an overloaded server's score does not depend on the
      probe at all (it is never pinged); a lossy one keeps its rtt but scores 0. */
  lemma ServerScoreGates(server: Server, probe: Probe)
    ensures ServerScore(server, probe).load == server.load
    ensures server.load >= 95 ==>
      && ServerScore(server, probe) == Score(0.0, server.load, None)
      && forall other :: ServerScore(server, other) == ServerScore(server, probe)
    ensures server.load < 95 ==> ServerScore(server, probe).rtt == probe.rtt
    ensures server.load < 95 && probe.loss >= 5.0 ==> ServerScore(server, probe).score == 0.0
    ensures server.load < 95 && probe.loss < 5.0 ==> ServerScore(server, probe).score == probe.formula
  {
  }

  /** Python truthiness of the latency: None and 0.0 are false. */
  predicate LatencyTruthy(rtt: Option<real>)
  {
    rtt.Some? && rtt.value != 0.0
  }

  /** Whether compare_server gets past its latency check for this probe. */
  predicate Succeeds(m: (Server, Probe))
  {
    LatencyTruthy(ServerScore(m.0, m.1).rtt)
  }

  // ---------------------------------------------------------------------
  // compare_server
  // ---------------------------------------------------------------------

  /** The protocols offered for a server: udp first, then tcp, each when the
      server supports it and it is enabled. */
  function SupportedProtocols(server: Server, validProtocols: seq<string>): seq<string>
  {
    (if server.openvpnUdp && "udp" in validProtocols then ["udp"] else [])
    + (if server.openvpnTcp && "tcp" in validProtocols then ["tcp"] else [])
  }

  lemma SupportedProtocolsSpec(server: Server, validProtocols: seq<string>, p: string)
    ensures p in SupportedProtocols(server, validProtocols) <==>
      || (p == "udp" && server.openvpnUdp && "udp" in validProtocols)
      || (p == "tcp" && server.openvpnTcp && "tcp" in validProtocols)
    ensures |SupportedProtocols(server, validProtocols)| <= 2
    ensures "udp" in SupportedProtocols(server, validProtocols) && "tcp" in SupportedProtocols(server, validProtocols)
      ==> SupportedProtocols(server, validProtocols) == ["udp", "tcp"]
  {
  }

  /** What a server bids for a key: its score, load and (truthy) latency. */
  datatype Bid = Bid(score: real, load: int, latency: real)

  function BidOf(m: (Server, Probe)): Bid
    requires Succeeds(m)
  {
    var s := ServerScore(m.0, m.1);
    Bid(s.score, s.load, s.rtt.value)
  }

  /** The score to beat for a key: the stored one, or -1 when there is none. */
  function StoredScore(best: Dict<Key, Record>, key: Key): real
  {
    if key in best.entries then best.entries[key].score else -1.0
  }

  /** The shared dict after a comparison, and what the comparison returned
      or raised. On a raise the dict keeps the writes made before it. */
  datatype Comparison = Comparison(best: Dict<Key, Record>, outcome: Result<bool>)

  /** One key: the server's record replaces the stored one when its score is
      strictly higher; building its name raises KeyError on an unknown category. */
  function OfferKey(best: Dict<Key, Record>, server: Server, bid: Bid, key: Key): (c: Comparison)
    requires best.Valid()
    ensures c.best.Valid()
    ensures c.outcome != Ok(false)
  {
    if bid.score > StoredScore(best, key) then
      match ConnectionName(server, key.2)
      case None => Comparison(best, Raised(KeyError))
      case Some(name) => Comparison(best.Put(key, Record(name, server.domain, bid.score, bid.load, bid.latency)), Ok(true))
    else
      Comparison(best, Ok(true))
  }

  /** The inner loop: the keys (country, short, p) for p in ps, in order. */
  function OfferProtocols(best: Dict<Key, Record>, server: Server, bid: Bid, country: string, short: string,
                          ps: seq<string>): (c: Comparison)
    requires best.Valid()
    ensures c.best.Valid()
    ensures c.outcome != Ok(false)
    decreases |ps|
  {
    if ps == [] then Comparison(best, Ok(true))
    else
      var c := OfferProtocols(best, server, bid, country, short, ps[..|ps| - 1]);
      if c.outcome.Raised? then c else OfferKey(c.best, server, bid, (country, short, ps[|ps| - 1]))
  }

  /** The outer loop over the server's categories: an enabled one is looked up
      in VPN_CATEGORIES (KeyError when missing) and its keys are offered. */
  function OfferCategories(best: Dict<Key, Record>, server: Server, bid: Bid, cats: seq<string>,
                           validCategories: seq<string>, ps: seq<string>): (c: Comparison)
    requires best.Valid()
    ensures c.best.Valid()
    ensures c.outcome != Ok(false)
    decreases |cats|
  {
    if cats == [] then Comparison(best, Ok(true))
    else
      var c := OfferCategories(best, server, bid, cats[..|cats| - 1], validCategories, ps);
      if c.outcome.Raised? then c else OfferCategory(c.best, server, bid, cats[|cats| - 1], validCategories, ps)
  }

  /** One category of the outer loop. */
  function OfferCategory(best: Dict<Key, Record>, server: Server, bid: Bid, long: string,
                         validCategories: seq<string>, ps: seq<string>): (c: Comparison)
    requires best.Valid()
    ensures c.best.Valid()
    ensures c.outcome != Ok(false)
  {
    if long !in validCategories then Comparison(best, Ok(true))
    else
      match ShortName(long)
      case None => Comparison(best, Raised(KeyError))
      case Some(short) => OfferProtocols(best, server, bid, Lower(server.flag), short, ps)
  }

  /** One more protocol, after the earlier ones left mid without raising. */
  lemma OfferProtocolsStep(best: Dict<Key, Record>, server: Server, bid: Bid, country: string, short: string,
                           ps: seq<string>, j: nat, mid: Dict<Key, Record>, after: Comparison)
    requires best.Valid() && mid.Valid() && j < |ps|
    requires OfferProtocols(best, server, bid, country, short, ps[..j]) == Comparison(mid, Ok(true))
    requires after == OfferKey(mid, server, bid, (country, short, ps[j]))
    ensures OfferProtocols(best, server, bid, country, short, ps[..j + 1]) == after
  {
    assert ps[..j + 1][..j] == ps[..j];
  }

  /** One more category, after the earlier ones left mid without raising. */
  lemma OfferCategoriesStep(best: Dict<Key, Record>, server: Server, bid: Bid, cats: seq<string>,
                            validCategories: seq<string>, ps: seq<string>, i: nat, mid: Dict<Key, Record>,
                            after: Comparison)
    requires best.Valid() && mid.Valid() && i < |cats|
    requires OfferCategories(best, server, bid, cats[..i], validCategories, ps) == Comparison(mid, Ok(true))
    requires after == OfferCategory(mid, server, bid, cats[i], validCategories, ps)
    ensures OfferCategories(best, server, bid, cats[..i + 1], validCategories, ps) == after
  {
    assert cats[..i + 1][..i] == cats[..i];
  }

  /** compare_server as a function of the shared dict before the call. */
  function Compare(best: Dict<Key, Record>, server: Server, probe: Probe,
                   validProtocols: seq<string>, validCategories: seq<string>): (c: Comparison)
    requires best.Valid()
    ensures c.best.Valid()
  {
    var s := ServerScore(server, probe);
    if !LatencyTruthy(s.rtt) then Comparison(best, Ok(false))
    else
      OfferCategories(best, server, Bid(s.score, s.load, s.rtt.value), server.categories, validCategories,
                      SupportedProtocols(server, validProtocols))
  }

  // ---------------------------------------------------------------------
  // What one comparison does to one key
  // ---------------------------------------------------------------------

  predicate Unchanged(d0: Dict<Key, Record>, d: Dict<Key, Record>, k: Key)
  {
    && (k in d.entries <==> k in d0.entries)
    && (k in d0.entries ==> d.entries[k] == d0.entries[k])
  }

  /** The key holds exactly the server's record for the key's protocol. */
  predicate Installed(d: Dict<Key, Record>, k: Key, server: Server, bid: Bid)
  {
    && k in d.entries
    && ConnectionName(server, k.2).Some?
    && d.entries[k] == Record(ConnectionName(server, k.2).value, server.domain, bid.score, bid.load, bid.latency)
  }

  /** The rule for an offered key: replaced when the bid is strictly higher
      than the score to beat, left alone otherwise (a tie keeps the old one). */
  predicate Offered(d0: Dict<Key, Record>, d: Dict<Key, Record>, k: Key, server: Server, bid: Bid)
  {
    if bid.score > StoredScore(d0, k) then Installed(d, k, server, bid) else Unchanged(d0, d, k)
  }

  lemma OfferedThenUnchanged(d0: Dict<Key, Record>, d1: Dict<Key, Record>, d2: Dict<Key, Record>, k: Key,
                             server: Server, bid: Bid)
    requires Offered(d0, d1, k, server, bid) && Unchanged(d1, d2, k)
    ensures Offered(d0, d2, k, server, bid)
  {
  }

  lemma UnchangedThenOffered(d0: Dict<Key, Record>, d1: Dict<Key, Record>, d2: Dict<Key, Record>, k: Key,
                             server: Server, bid: Bid)
    requires Unchanged(d0, d1, k) && Offered(d1, d2, k, server, bid)
    ensures Offered(d0, d2, k, server, bid)
  {
  }

  /** Offering the same bid twice is offering it once: after the first
      install the stored score equals the bid, which does not beat itself. */
  lemma OfferedTwice(d0: Dict<Key, Record>, d1: Dict<Key, Record>, d2: Dict<Key, Record>, k: Key,
                     server: Server, bid: Bid)
    requires Offered(d0, d1, k, server, bid) && Offered(d1, d2, k, server, bid)
    ensures Offered(d0, d2, k, server, bid)
  {
    if bid.score > StoredScore(d0, k) {
      assert StoredScore(d1, k) == bid.score;
    }
  }

  lemma OfferKeyEffect(best: Dict<Key, Record>, server: Server, bid: Bid, key: Key, k: Key)
    requires best.Valid() && OfferKey(best, server, bid, key).outcome.Ok?
    ensures k == key ==> Offered(best, OfferKey(best, server, bid, key).best, k, server, bid)
    ensures k != key ==> Unchanged(best, OfferKey(best, server, bid, key).best, k)
  {
  }

  /** The inner loop offers exactly the keys (country, short, p), p in ps. */
  lemma {:induction false} OfferProtocolsEffect(best: Dict<Key, Record>, server: Server, bid: Bid, country: string,
                                                short: string, ps: seq<string>, k: Key)
    requires best.Valid() && OfferProtocols(best, server, bid, country, short, ps).outcome.Ok?
    ensures k.0 == country && k.1 == short && k.2 in ps ==>
      Offered(best, OfferProtocols(best, server, bid, country, short, ps).best, k, server, bid)
    ensures !(k.0 == country && k.1 == short && k.2 in ps) ==>
      Unchanged(best, OfferProtocols(best, server, bid, country, short, ps).best, k)
    decreases |ps|
  {
    if ps != [] {
      var front := ps[..|ps| - 1];
      var last := ps[|ps| - 1];
      var c := OfferProtocols(best, server, bid, country, short, front);
      var key := (country, short, last);
      OfferProtocolsEffect(best, server, bid, country, short, front, k);
      OfferKeyEffect(c.best, server, bid, key, k);
      var d := OfferKey(c.best, server, bid, key).best;
      assert k.2 in ps <==> k.2 in front || k.2 == last;
      if k.0 == country && k.1 == short && k.2 in front {
        if k == key {
          OfferedTwice(best, c.best, d, k, server, bid);
        } else {
          OfferedThenUnchanged(best, c.best, d, k, server, bid);
        }
      } else if k == key {
        UnchangedThenOffered(best, c.best, d, k, server, bid);
      }
    }
  }

  /** Some enabled category among cats has the short name short. */
  predicate Covers(cats: seq<string>, validCategories: seq<string>, short: string)
    decreases |cats|
  {
    cats != [] &&
    (|| (cats[|cats| - 1] in validCategories && ShortName(cats[|cats| - 1]) == Some(short))
     || Covers(cats[..|cats| - 1], validCategories, short))
  }

  lemma {:induction false} CoversSpec(cats: seq<string>, validCategories: seq<string>, short: string)
    ensures Covers(cats, validCategories, short) <==>
      exists i :: 0 <= i < |cats| && cats[i] in validCategories && ShortName(cats[i]) == Some(short)
    decreases |cats|
  {
    if cats != [] {
      var front := cats[..|cats| - 1];
      CoversSpec(front, validCategories, short);
      assert forall i :: 0 <= i < |front| ==> front[i] == cats[i];
    }
  }

  /** The outer loop offers exactly the keys of the enabled categories. */
  lemma {:induction false} OfferCategoriesEffect(best: Dict<Key, Record>, server: Server, bid: Bid, cats: seq<string>,
                                                 validCategories: seq<string>, ps: seq<string>, k: Key)
    requires best.Valid() && OfferCategories(best, server, bid, cats, validCategories, ps).outcome.Ok?
    ensures k.0 == Lower(server.flag) && k.2 in ps && Covers(cats, validCategories, k.1) ==>
      Offered(best, OfferCategories(best, server, bid, cats, validCategories, ps).best, k, server, bid)
    ensures !(k.0 == Lower(server.flag) && k.2 in ps && Covers(cats, validCategories, k.1)) ==>
      Unchanged(best, OfferCategories(best, server, bid, cats, validCategories, ps).best, k)
    decreases |cats|
  {
    if cats != [] {
      var front := cats[..|cats| - 1];
      var long := cats[|cats| - 1];
      OfferCategoriesEffect(best, server, bid, front, validCategories, ps, k);
      var c := OfferCategories(best, server, bid, front, validCategories, ps);
      if long in validCategories {
        var short := ShortName(long).value;
        OfferProtocolsEffect(c.best, server, bid, Lower(server.flag), short, ps, k);
        var d := OfferProtocols(c.best, server, bid, Lower(server.flag), short, ps).best;
        var inFront := k.0 == Lower(server.flag) && k.2 in ps && Covers(front, validCategories, k.1);
        var inLast := k.0 == Lower(server.flag) && k.1 == short && k.2 in ps;
        if inFront && inLast {
          OfferedTwice(best, c.best, d, k, server, bid);
        } else if inFront {
          OfferedThenUnchanged(best, c.best, d, k, server, bid);
        } else if inLast {
          UnchangedThenOffered(best, c.best, d, k, server, bid);
        }
      }
    }
  }

  /** k is one of the keys a server bids for. */
  predicate Candidate(server: Server, validProtocols: seq<string>, validCategories: seq<string>, k: Key)
  {
    && k.0 == Lower(server.flag)
    && k.2 in SupportedProtocols(server, validProtocols)
    && exists i :: 0 <= i < |server.categories| && server.categories[i] in validCategories
                   && ShortName(server.categories[i]) == Some(k.1)
  }

  /** compare_server returns False exactly when the latency is falsy, and then
      changes nothing; when it returns True every key it bids for follows the
      strictly-higher rule and every other key is untouched. */
  lemma CompareEffect(best: Dict<Key, Record>, server: Server, probe: Probe,
                      validProtocols: seq<string>, validCategories: seq<string>, k: Key)
    requires best.Valid() && Compare(best, server, probe, validProtocols, validCategories).outcome.Ok?
    ensures Compare(best, server, probe, validProtocols, validCategories).outcome.value <==> Succeeds((server, probe))
    ensures !Succeeds((server, probe)) ==> Compare(best, server, probe, validProtocols, validCategories).best == best
    ensures Succeeds((server, probe)) && Candidate(server, validProtocols, validCategories, k) ==>
      Offered(best, Compare(best, server, probe, validProtocols, validCategories).best, k, server, BidOf((server, probe)))
    ensures !Candidate(server, validProtocols, validCategories, k) ==>
      Unchanged(best, Compare(best, server, probe, validProtocols, validCategories).best, k)
  {
    if Succeeds((server, probe)) {
      var ps := SupportedProtocols(server, validProtocols);
      OfferCategoriesEffect(best, server, BidOf((server, probe)), server.categories, validCategories, ps, k);
      CoversSpec(server.categories, validCategories, k.1);
    }
  }

  /** Consequences for the scores: the score to beat never goes down, a
      successful bid leaves at least its own score behind, and a changed key
      now holds the bid's score. */
  lemma CompareScores(best: Dict<Key, Record>, server: Server, probe: Probe,
                      validProtocols: seq<string>, validCategories: seq<string>, k: Key)
    requires best.Valid() && Compare(best, server, probe, validProtocols, validCategories).outcome.Ok?
    ensures var after := Compare(best, server, probe, validProtocols, validCategories).best;
      && StoredScore(after, k) >= StoredScore(best, k)
      && (Succeeds((server, probe)) && Candidate(server, validProtocols, validCategories, k) ==>
            StoredScore(after, k) >= ServerScore(server, probe).score)
      && (StoredScore(after, k) != StoredScore(best, k) ==> StoredScore(after, k) == ServerScore(server, probe).score)
  {
    CompareEffect(best, server, probe, validProtocols, validCategories, k);
  }

  /** A server at 95% load or more is never installed: compare_server returns
      False and leaves the dict as it was. */
  lemma OverloadedNeverInstalled(best: Dict<Key, Record>, server: Server, probe: Probe,
                                 validProtocols: seq<string>, validCategories: seq<string>)
    requires best.Valid() && server.load >= 95
    ensures Compare(best, server, probe, validProtocols, validCategories) == Comparison(best, Ok(false))
  {
  }

  /** A lossy server still scores 0, which beats the -1 of an empty key: it
      fills every key it bids for that nobody holds yet. */
  lemma LossyServerFillsEmptyKeys(best: Dict<Key, Record>, server: Server, probe: Probe,
                                  validProtocols: seq<string>, validCategories: seq<string>, k: Key)
    requires best.Valid() && Compare(best, server, probe, validProtocols, validCategories).outcome.Ok?
    requires server.load < 95 && probe.loss >= 5.0 && LatencyTruthy(probe.rtt)
    requires Candidate(server, validProtocols, validCategories, k) && k !in best.entries
    ensures Installed(Compare(best, server, probe, validProtocols, validCategories).best, k, server,
                      Bid(0.0, server.load, probe.rtt.value))
  {
    CompareEffect(best, server, probe, validProtocols, validCategories, k);
  }

  /** When every category of the server is in VPN_CATEGORIES nothing raises. */
  lemma {:induction false} KnownCategoriesNeverRaise(best: Dict<Key, Record>, server: Server, probe: Probe,
                                                     validProtocols: seq<string>, validCategories: seq<string>)
    requires best.Valid()
    requires forall i :: 0 <= i < |server.categories| ==> server.categories[i] in CategoryNames()
    ensures Compare(best, server, probe, validProtocols, validCategories).outcome.Ok?
  {
    if Succeeds((server, probe)) {
      ConnectionNameDefined(server, "udp");
      CategoriesNeverRaise(best, server, BidOf((server, probe)), server.categories, validCategories,
                           SupportedProtocols(server, validProtocols));
    }
  }

  lemma {:induction false} CategoriesNeverRaise(best: Dict<Key, Record>, server: Server, bid: Bid, cats: seq<string>,
                                                validCategories: seq<string>, ps: seq<string>)
    requires best.Valid() && ConnectionName(server, "udp").Some?
    requires forall i :: 0 <= i < |cats| ==> cats[i] in CategoryNames()
    ensures OfferCategories(best, server, bid, cats, validCategories, ps).outcome.Ok?
    decreases |cats|
  {
    if cats != [] {
      var front := cats[..|cats| - 1];
      CategoriesNeverRaise(best, server, bid, front, validCategories, ps);
      var c := OfferCategories(best, server, bid, front, validCategories, ps);
      var long := cats[|cats| - 1];
      if long in validCategories {
        ProtocolsNeverRaise(c.best, server, bid, Lower(server.flag), ShortName(long).value, ps);
      }
    }
  }

  lemma {:induction false} ProtocolsNeverRaise(best: Dict<Key, Record>, server: Server, bid: Bid, country: string,
                                               short: string, ps: seq<string>)
    requires best.Valid() && ConnectionName(server, "udp").Some?
    ensures OfferProtocols(best, server, bid, country, short, ps).outcome.Ok?
    decreases |ps|
  {
    if ps != [] {
      ProtocolsNeverRaise(best, server, bid, country, short, ps[..|ps| - 1]);
      assert ConnectionName(server, ps[|ps| - 1]).Some?;
    }
  }

  /** After a raise the rest of the inner loop does nothing. */
  lemma {:induction false} OfferProtocolsAbsorbs(best: Dict<Key, Record>, server: Server, bid: Bid, country: string,
                                                 short: string, ps: seq<string>, j: nat)
    requires best.Valid() && j <= |ps|
    requires OfferProtocols(best, server, bid, country, short, ps[..j]).outcome.Raised?
    ensures OfferProtocols(best, server, bid, country, short, ps) == OfferProtocols(best, server, bid, country, short, ps[..j])
    decreases |ps| - j
  {
    if j < |ps| {
      assert ps[..j + 1][..j] == ps[..j];
      OfferProtocolsAbsorbs(best, server, bid, country, short, ps, j + 1);
    } else {
      assert ps[..j] == ps;
    }
  }

  /** After a raise the rest of the outer loop does nothing. */
  lemma {:induction false} OfferCategoriesAbsorbs(best: Dict<Key, Record>, server: Server, bid: Bid, cats: seq<string>,
                                                  validCategories: seq<string>, ps: seq<string>, j: nat)
    requires best.Valid() && j <= |cats|
    requires OfferCategories(best, server, bid, cats[..j], validCategories, ps).outcome.Raised?
    ensures OfferCategories(best, server, bid, cats, validCategories, ps)
         == OfferCategories(best, server, bid, cats[..j], validCategories, ps)
    decreases |cats| - j
  {
    if j < |cats| {
      assert cats[..j + 1][..j] == cats[..j];
      OfferCategoriesAbsorbs(best, server, bid, cats, validCategories, ps, j + 1);
    } else {
      assert cats[..j] == cats;
    }
  }

  /** The best_servers dict shared by every compare_server call. */
  class SelectionIndex {
    var best: Dict<Key, Record>

    constructor()
      ensures best == Empty()
    {
      best := Empty();
    }

    /** compare_server: returns whether the ping succeeded, or the KeyError
        raised; best is left as the writes up to that point made it. */
    method CompareServer(server: Server, probe: Probe, validProtocols: seq<string>, validCategories: seq<string>)
      returns (r: Result<bool>)
      requires best.Valid()
      modifies this
      ensures best == Compare(old(best), server, probe, validProtocols, validCategories).best
      ensures r == Compare(old(best), server, probe, validProtocols, validCategories).outcome
    {
      var supported: seq<string> := [];
      if server.openvpnUdp && "udp" in validProtocols {
        supported := supported + ["udp"];
      }
      if server.openvpnTcp && "tcp" in validProtocols {
        supported := supported + ["tcp"];
      }
      assert supported == SupportedProtocols(server, validProtocols);
      var score := ServerScore(server, probe);
      if !LatencyTruthy(score.rtt) {
        return Ok(false);
      }
      var bid := Bid(score.score, score.load, score.rtt.value);
      r := OfferCategoriesTo(server, bid, server.categories, validCategories, supported);
    }

    /** The outer loop of compare_server over the server's categories. */
    method OfferCategoriesTo(server: Server, bid: Bid, cats: seq<string>, validCategories: seq<string>,
                             ps: seq<string>) returns (r: Result<bool>)
      requires best.Valid()
      modifies this
      ensures Comparison(best, r) == OfferCategories(old(best), server, bid, cats, validCategories, ps)
    {
      ghost var best0 := best;
      r := Ok(true);
      var i := 0;
      while i < |cats| && r.Ok?
        invariant 0 <= i <= |cats| && best.Valid()
        invariant OfferCategories(best0, server, bid, cats[..i], validCategories, ps) == Comparison(best, r)
      {
        ghost var mid := best;
        assert r == Ok(true);
        r := OfferCategoryTo(server, bid, cats[i], validCategories, ps);
        OfferCategoriesStep(best0, server, bid, cats, validCategories, ps, i, mid, Comparison(best, r));
        i := i + 1;
      }
      if r.Raised? {
        OfferCategoriesAbsorbs(best0, server, bid, cats, validCategories, ps, i);
      } else {
        assert cats[..i] == cats;
      }
    }

    /** One category: an enabled one is looked up and its keys offered. */
    method OfferCategoryTo(server: Server, bid: Bid, long: string, validCategories: seq<string>, ps: seq<string>)
      returns (r: Result<bool>)
      requires best.Valid()
      modifies this
      ensures Comparison(best, r) == OfferCategory(old(best), server, bid, long, validCategories, ps)
    {
      if long in validCategories {
        var short := ShortName(long);
        if short.None? {
          return Raised(KeyError);
        }
        r := OfferProtocolsTo(server, bid, Lower(server.flag), short.value, ps);
      } else {
        r := Ok(true);
      }
    }

    /** The inner loop of compare_server over the supported protocols. */
    method OfferProtocolsTo(server: Server, bid: Bid, country: string, short: string, ps: seq<string>)
      returns (r: Result<bool>)
      requires best.Valid()
      modifies this
      ensures Comparison(best, r) == OfferProtocols(old(best), server, bid, country, short, ps)
    {
      ghost var best0 := best;
      r := Ok(true);
      var j := 0;
      while j < |ps| && r.Ok?
        invariant 0 <= j <= |ps| && best.Valid()
        invariant OfferProtocols(best0, server, bid, country, short, ps[..j]) == Comparison(best, r)
      {
        ghost var mid := best;
        assert r == Ok(true);
        r := OfferKeyTo(server, bid, (country, short, ps[j]));
        OfferProtocolsStep(best0, server, bid, country, short, ps, j, mid, Comparison(best, r));
        j := j + 1;
      }
      if r.Raised? {
        OfferProtocolsAbsorbs(best0, server, bid, country, short, ps, j);
      } else {
        assert ps[..j] == ps;
      }
    }

    /** One key of the inner loop: the stored score (or -1) against the bid. */
    method OfferKeyTo(server: Server, bid: Bid, key: Key) returns (r: Result<bool>)
      requires best.Valid()
      modifies this
      ensures Comparison(best, r) == OfferKey(old(best), server, bid, key)
    {
      var bestScore := -1.0;
      if key in best.entries {
        bestScore := best.entries[key].score;
      }
      if bid.score > bestScore {
        var name := GenerateConnectionName(server, key.2);
        if name.Raised? {
          return Raised(name.error);
        }
        best := best.Put(key, Record(name.value, server.domain, bid.score, bid.load, bid.latency));
      }
      return Ok(true);
    }
  }

  // ---------------------------------------------------------------------
  // get_num_processes and get_best_servers
  // ---------------------------------------------------------------------

  /** get_num_processes: the number of servers, capped by the file
      descriptors left below the soft limit and by MAX_FD. */
  function GetNumProcesses(numServers: int, softLimit: int, usedFds: int): (r: int)
    ensures r <= numServers && r <= softLimit - usedFds && r <= MAX_FD
    ensures r == numServers || r == softLimit - usedFds || r == MAX_FD
  {
    var maxProcesses := softLimit - usedFds;
    var maxProcesses := if maxProcesses > MAX_FD then MAX_FD else maxProcesses;
    if numServers > maxProcesses then maxProcesses else numServers
  }

  /** The dict, the result of every comparison in server order, and the
      exception that stopped the run, if any. */
  datatype Run = Run(best: Dict<Key, Record>, results: seq<bool>, error: Option<Error>)

  /** The comparisons of get_best_servers one after the other, each seeing
      the dict the earlier ones left; a raise ends the run. */
  function Benchmark(best: Dict<Key, Record>, measured: seq<(Server, Probe)>,
                     validProtocols: seq<string>, validCategories: seq<string>): (r: Run)
    requires best.Valid()
    ensures r.best.Valid()
    decreases |measured|
  {
    if measured == [] then Run(best, [], None)
    else
      var r := Benchmark(best, measured[..|measured| - 1], validProtocols, validCategories);
      var m := measured[|measured| - 1];
      if r.error.Some? then r
      else
        var c := Compare(r.best, m.0, m.1, validProtocols, validCategories);
        match c.outcome
        case Raised(e) => Run(c.best, r.results, Some(e))
        case Ok(b) => Run(c.best, r.results + [b], None)
  }

  /** The i-th result is True exactly when the i-th server's latency is truthy. */
  lemma {:induction false} BenchmarkResults(best: Dict<Key, Record>, measured: seq<(Server, Probe)>,
                                            validProtocols: seq<string>, validCategories: seq<string>)
    requires best.Valid() && Benchmark(best, measured, validProtocols, validCategories).error.None?
    ensures |Benchmark(best, measured, validProtocols, validCategories).results| == |measured|
    ensures forall i :: 0 <= i < |measured| ==>
      Benchmark(best, measured, validProtocols, validCategories).results[i] == Succeeds(measured[i])
    decreases |measured|
  {
    if measured != [] {
      var front := measured[..|measured| - 1];
      var m := measured[|measured| - 1];
      BenchmarkResults(best, front, validProtocols, validCategories);
      BenchmarkLast(best, measured, validProtocols, validCategories);
      var r := Benchmark(best, front, validProtocols, validCategories);
      var c := Compare(r.best, m.0, m.1, validProtocols, validCategories);
      CompareEffect(r.best, m.0, m.1, validProtocols, validCategories, (m.0.flag, "", ""));
      var res := Benchmark(best, measured, validProtocols, validCategories).results;
      assert res == r.results + [c.outcome.value];
      forall i | 0 <= i < |measured|
        ensures res[i] == Succeeds(measured[i])
      {
        if i < |front| {
          assert res[i] == r.results[i] && front[i] == measured[i];
        } else {
          assert i == |measured| - 1;
        }
      }
    }
  }

  /** Every key ends with a score at least that of every successful server
      that bid for it: the dict holds the best server per key. */
  lemma {:induction false} BenchmarkMaximal(best: Dict<Key, Record>, measured: seq<(Server, Probe)>,
                                            validProtocols: seq<string>, validCategories: seq<string>, k: Key, i: nat)
    requires best.Valid() && Benchmark(best, measured, validProtocols, validCategories).error.None?
    requires i < |measured| && Succeeds(measured[i]) && Candidate(measured[i].0, validProtocols, validCategories, k)
    ensures StoredScore(Benchmark(best, measured, validProtocols, validCategories).best, k)
            >= ServerScore(measured[i].0, measured[i].1).score
    decreases |measured|
  {
    var front := measured[..|measured| - 1];
    var m := measured[|measured| - 1];
    var r := Benchmark(best, front, validProtocols, validCategories);
    BenchmarkLast(best, measured, validProtocols, validCategories);
    var after := Compare(r.best, m.0, m.1, validProtocols, validCategories).best;
    CompareScores(r.best, m.0, m.1, validProtocols, validCategories, k);
    if i < |front| {
      assert front[i] == measured[i];
      BenchmarkMaximal(best, front, validProtocols, validCategories, k, i);
      assert StoredScore(after, k) >= StoredScore(r.best, k) >= ServerScore(measured[i].0, measured[i].1).score;
    } else {
      assert i == |measured| - 1;
    }
  }

  /** A run without error ends with a run of all servers but the last
      without error, followed by an error-free comparison of the last. */
  lemma BenchmarkLast(best: Dict<Key, Record>, measured: seq<(Server, Probe)>,
                      validProtocols: seq<string>, validCategories: seq<string>)
    requires best.Valid() && measured != [] && Benchmark(best, measured, validProtocols, validCategories).error.None?
    ensures var r := Benchmark(best, measured[..|measured| - 1], validProtocols, validCategories);
      var m := measured[|measured| - 1];
      && r.error.None?
      && Compare(r.best, m.0, m.1, validProtocols, validCategories).outcome.Ok?
      && Benchmark(best, measured, validProtocols, validCategories).best
         == Compare(r.best, m.0, m.1, validProtocols, validCategories).best
      && Benchmark(best, measured, validProtocols, validCategories).results
         == r.results + [Compare(r.best, m.0, m.1, validProtocols, validCategories).outcome.value]
  {
  }

  /** Every key the run filled holds the record of a successful server that
      bid for it (or the record it started with). */
  lemma {:induction false} BenchmarkProvenance(best: Dict<Key, Record>, measured: seq<(Server, Probe)>,
                                               validProtocols: seq<string>, validCategories: seq<string>, k: Key)
    requires best.Valid() && Benchmark(best, measured, validProtocols, validCategories).error.None?
    requires k in Benchmark(best, measured, validProtocols, validCategories).best.entries
    ensures || (k in best.entries && Benchmark(best, measured, validProtocols, validCategories).best.entries[k] == best.entries[k])
            || exists i :: 0 <= i < |measured| && Succeeds(measured[i])
                           && Candidate(measured[i].0, validProtocols, validCategories, k)
                           && Installed(Benchmark(best, measured, validProtocols, validCategories).best, k,
                                        measured[i].0, BidOf(measured[i]))
    decreases |measured|
  {
    if measured != [] {
      var front := measured[..|measured| - 1];
      var m := measured[|measured| - 1];
      var r := Benchmark(best, front, validProtocols, validCategories);
      var d := Benchmark(best, measured, validProtocols, validCategories).best;
      CompareEffect(r.best, m.0, m.1, validProtocols, validCategories, k);
      if Succeeds(m) && Candidate(m.0, validProtocols, validCategories, k) && BidOf(m).score > StoredScore(r.best, k) {
        assert Installed(d, k, measured[|measured| - 1].0, BidOf(measured[|measured| - 1]));
      } else {
        assert Unchanged(r.best, d, k);
        BenchmarkProvenance(best, front, validProtocols, validCategories, k);
        if !(k in best.entries && r.best.entries[k] == best.entries[k]) {
          var i :| 0 <= i < |front| && Succeeds(front[i]) && Candidate(front[i].0, validProtocols, validCategories, k)
                   && Installed(r.best, k, front[i].0, BidOf(front[i]));
          assert measured[i] == front[i];
        }
      }
    }
  }

  /** A key a run filled from nothing carries the lower-cased flag of one of the servers. */
  lemma BenchmarkCountries(best: Dict<Key, Record>, measured: seq<(Server, Probe)>,
                           validProtocols: seq<string>, validCategories: seq<string>, k: Key)
    requires best.Valid() && Benchmark(best, measured, validProtocols, validCategories).error.None?
    requires k in Benchmark(best, measured, validProtocols, validCategories).best.entries && k !in best.entries
    ensures exists i :: 0 <= i < |measured| && k.0 == Lower(measured[i].0.flag)
  {
    BenchmarkProvenance(best, measured, validProtocols, validCategories, k);
  }

  /** Benchmark keys carry the country lower-cased, while enable_auto_connect
      looks a key up with the country upper-cased: for a country code that
      holds a letter, the lookup never finds a key a benchmark run produced. */
  lemma AutoConnectMissesBenchmarkKeys(measured: seq<(Server, Probe)>, validProtocols: seq<string>,
                                       validCategories: seq<string>, code: string, j: nat, category: string, protocol: string)
    requires Benchmark(Empty(), measured, validProtocols, validCategories).error.None?
    requires j < |code| && IsAsciiLetter(code[j])
    ensures (Upper(code), category, protocol) !in Benchmark(Empty(), measured, validProtocols, validCategories).best.entries
  {
    var k := (Upper(code), category, protocol);
    var d := Benchmark(Empty(), measured, validProtocols, validCategories).best;
    if k in d.entries {
      BenchmarkCountries(Empty(), measured, validProtocols, validCategories, k);
      var i :| 0 <= i < |measured| && k.0 == Lower(measured[i].0.flag);
      UpperNeverLower(code, measured[i].0.flag);
    }
  }

  /** get_best_servers: the comparisons run in server order against one
      shared dict; Pool raises ValueError when asked for fewer than one
      process. Returns the dict and how many comparisons returned True. */
  method GetBestServers(measured: seq<(Server, Probe)>, validProtocols: seq<string>, validCategories: seq<string>,
                        slowMode: bool, cpuCount: int, softLimit: int, usedFds: int)
    returns (r: Result<(Dict<Key, Record>, nat)>)
    ensures var n := if slowMode then cpuCount else GetNumProcesses(|measured|, softLimit, usedFds);
      n < 1 ==> r == Raised(ValueError)
    ensures var n := if slowMode then cpuCount else GetNumProcesses(|measured|, softLimit, usedFds);
      var run := Benchmark(Empty(), measured, validProtocols, validCategories);
      n >= 1 ==> r == if run.error.Some? then Raised(run.error.value) else Ok((run.best, Count(run.results, true)))
  {
    var numServers := |measured|;
    var numProcesses;
    if slowMode {
      numProcesses := cpuCount;
    } else {
      numProcesses := GetNumProcesses(numServers, softLimit, usedFds);
    }
    if numProcesses < 1 {
      return Raised(ValueError);
    }
    var index := new SelectionIndex();
    var results: seq<bool> := [];
    var i := 0;
    while i < |measured|
      invariant 0 <= i <= |measured| && index.best.Valid()
      invariant Benchmark(Empty(), measured[..i], validProtocols, validCategories) == Run(index.best, results, None)
    {
      assert measured[..i + 1][..i] == measured[..i];
      var result := index.CompareServer(measured[i].0, measured[i].1, validProtocols, validCategories);
      if result.Raised? {
        BenchmarkAbsorbs(Empty(), measured, validProtocols, validCategories, i + 1);
        return Raised(result.error);
      }
      results := results + [result.value];
      i := i + 1;
    }
    assert measured[..i] == measured;
    var numSuccess := Count(results, true);
    return Ok((index.best, numSuccess));
  }

  /** After a raise the rest of the run does nothing. */
  lemma {:induction false} BenchmarkAbsorbs(best: Dict<Key, Record>, measured: seq<(Server, Probe)>,
                                            validProtocols: seq<string>, validCategories: seq<string>, j: nat)
    requires best.Valid() && j <= |measured|
    requires Benchmark(best, measured[..j], validProtocols, validCategories).error.Some?
    ensures Benchmark(best, measured, validProtocols, validCategories) == Benchmark(best, measured[..j], validProtocols, validCategories)
    decreases |measured| - j
  {
    if j < |measured| {
      assert measured[..j + 1][..j] == measured[..j];
      BenchmarkAbsorbs(best, measured, validProtocols, validCategories, j + 1);
    } else {
      assert measured[..j] == measured;
    }
  }
}
