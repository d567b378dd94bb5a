/** The discovery and acquisition pipeline of `Scraper#detect_redirections`,
    stated as functions: for each id of the range in ascending order, probe
    it; for an accepted id, normalise its descriptor name, append one ledger
    line and issue three downloads. The probe's status and the descriptor's
    `name` attribute are oracle inputs. */
module Discovery {
  import opened Options
  import opened Strings
  import opened Naming
  import opened Probe

  /** The hard-coded inclusive id range of `detect_redirections`. */
  const FirstId: nat := 10000000
  const LastId: nat := 10000001

  datatype Config = Config(
    baseUrl: string,
    reqDestination: string,
    bidDestination: string,
    wonDestination: string)

  /** One `wget <url> -P <directory>`. */
  datatype Download = Download(url: string, directory: string)

  /** What the run has written so far: the lines appended to the company
      matrix (the ledger) and the downloads issued, both in order. */
  datatype Trace = Trace(ledger: seq<string>, downloads: seq<Download>)

  /** The trace at the end of the sweep, and the id whose descriptor had no
      `name` attribute if that stopped it. */
  datatype Outcome = Outcome(trace: Trace, failedId: Option<nat>)

  function DescriptorUrl(base: string, id: nat): string {
    base + "/entity/t/" + Decimal(id) + ".xml"
  }

  function CsvUrl(base: string, kind: string, id: nat): string {
    base + "/data/csv/entity/all_tenders_" + kind + "/t_" + Decimal(id) + ".windows-1250.csv"
  }

  function RequestedUrl(base: string, id: nat): string {
    CsvUrl(base, "requested", id)
  }

  function BidUrl(base: string, id: nat): string {
    CsvUrl(base, "bid", id)
  }

  function WonUrl(base: string, id: nat): string {
    CsvUrl(base, "won", id)
  }

  /** `IO#puts`: a newline is added only when the text does not already end
      with one. */
  function Puts(s: string): (r: string)
    ensures Terminated(r)
    ensures Terminated(s) ==> r == s
    ensures !Terminated(s) ==> r == s + "\n"
  {
    if Terminated(s) then s else s + "\n"
  }

  /** `company_info`: "<id>,<name>\n". */
  function LedgerLine(id: nat, name: string): (line: string)
    ensures Puts(line) == line
  {
    Decimal(id) + "," + name + "\n"
  }

  /** Reads a ledger line back: the digits before the first comma are the id,
      the rest up to the final newline is the name. */
  function ParseLedgerLine(line: string): Option<(nat, string)> {
    var k := IndexOf(line, ',');
    if k == |line| || k == 0 || !AllDigits(line[..k]) || !Terminated(line[k + 1..]) then None
    else Some((ParseDecimal(line[..k]), line[k + 1..|line| - 1]))
  }

  /** The three downloads of `get_requested_csv`, `get_bid_csv` and
      `get_won_csv`: all three fetch the requested-tenders URL. */
  function Fetches(cfg: Config, id: nat): seq<Download> {
    var url := RequestedUrl(cfg.baseUrl, id);
    [Download(url, cfg.reqDestination), Download(url, cfg.bidDestination),
     Download(url, cfg.wonDestination)]
  }

  /** `update_matrix` and the three downloads for an accepted id. */
  function Acquire(t: Trace, cfg: Config, id: nat, displayName: string): Trace {
    Trace(t.ledger + [Puts(LedgerLine(id, displayName))], t.downloads + Fetches(cfg, id))
  }

  /** One iteration of the loop of `detect_redirections`. `None` means the
      descriptor had no `name`: the Ruby code then calls `gsub!` on `nil` and
      the exception ends the run. */
  function Visit(t: Trace, cfg: Config, id: nat, status: string, name: Option<string>): (r: Option<Trace>)
    ensures !Accepts(status) ==> r == Some(t)
    ensures Accepts(status) ==> (r.Some? <==> name.Some?)
    ensures r.Some? && Accepts(status) ==>
      && r.value.ledger == t.ledger + [LedgerLine(id, Normalize(name.value))]
      && r.value.downloads == t.downloads + Fetches(cfg, id)
      && |r.value.downloads| == |t.downloads| + 3
  {
    if !Accepts(status) then Some(t)
    else match name
      case None => None
      case Some(raw) => Some(Acquire(t, cfg, id, Normalize(raw)))
  }

  /** The loop over ids lo..hi in ascending order, starting from trace t. */
  function Sweep(t: Trace, cfg: Config, lo: nat, hi: int,
                 status: nat -> string, names: nat -> Option<string>): (o: Outcome)
    ensures t.ledger <= o.trace.ledger && t.downloads <= o.trace.downloads
    ensures o.failedId.Some? ==> lo <= o.failedId.value <= hi
    decreases hi + 1 - lo
  {
    if lo > hi then Outcome(t, None)
    else match Visit(t, cfg, lo, status(lo), names(lo))
      case None => Outcome(t, Some(lo))
      case Some(t') => Sweep(t', cfg, lo + 1, hi, status, names)
  }

  // ---------------------------------------------------------------------
  // Reference definitions: which ids are accepted, and what they add

  /** The accepted ids of lo..hi, in ascending order. */
  function AcceptedIds(lo: nat, hi: int, status: nat -> string): (ids: seq<nat>)
    ensures forall i :: 0 <= i < |ids| ==> lo <= ids[i] <= hi && Accepts(status(ids[i]))
    ensures forall i, j :: 0 <= i < j < |ids| ==> ids[i] < ids[j]
    ensures forall id :: lo <= id <= hi && Accepts(status(id)) ==> id in ids
    decreases hi + 1 - lo
  {
    if lo > hi then []
    else (if Accepts(status(lo)) then [lo] else []) + AcceptedIds(lo + 1, hi, status)
  }

  predicate AllNamed(ids: seq<nat>, names: nat -> Option<string>) {
    forall i :: 0 <= i < |ids| ==> names(ids[i]).Some?
  }

  /** One ledger line per id, in order. */
  function LedgerLines(ids: seq<nat>, names: nat -> Option<string>): seq<string>
    requires AllNamed(ids, names)
    decreases |ids|
  {
    if ids == [] then []
    else [LedgerLine(ids[0], Normalize(names(ids[0]).value))] + LedgerLines(ids[1..], names)
  }

  /** Three downloads per id, in order. */
  function AllFetches(cfg: Config, ids: seq<nat>): seq<Download>
    decreases |ids|
  {
    if ids == [] then [] else Fetches(cfg, ids[0]) + AllFetches(cfg, ids[1..])
  }

  function Destination(cfg: Config, k: nat): string
    requires k < 3
  {
    if k == 0 then cfg.reqDestination else if k == 1 then cfg.bidDestination else cfg.wonDestination
  }

  // ---------------------------------------------------------------------
  // Properties

  lemma AllNamedCons(id: nat, ids: seq<nat>, names: nat -> Option<string>)
    ensures AllNamed([id] + ids, names) <==> names(id).Some? && AllNamed(ids, names)
  {
    var all := [id] + ids;
    if names(id).Some? && AllNamed(ids, names) {
      forall i | 0 <= i < |all|
        ensures names(all[i]).Some?
      {
        if i > 0 {
          assert all[i] == ids[i - 1];
        }
      }
    }
    if AllNamed(all, names) {
      assert all[0] == id;
      forall i | 0 <= i < |ids|
        ensures names(ids[i]).Some?
      {
        assert ids[i] == all[i + 1];
      }
    }
  }

  lemma LedgerLinesCons(id: nat, ids: seq<nat>, names: nat -> Option<string>)
    requires names(id).Some? && AllNamed(ids, names)
    ensures AllNamed([id] + ids, names)
    ensures LedgerLines([id] + ids, names)
         == [LedgerLine(id, Normalize(names(id).value))] + LedgerLines(ids, names)
  {
    AllNamedCons(id, ids, names);
    assert ([id] + ids)[1..] == ids;
  }

  lemma AllFetchesCons(cfg: Config, id: nat, ids: seq<nat>)
    ensures AllFetches(cfg, [id] + ids) == Fetches(cfg, id) + AllFetches(cfg, ids)
  {
    assert ([id] + ids)[1..] == ids;
  }

  /** The sweep stopped at ids[j]: every accepted id before it was named and
      acquired, and ids[j] had no name. */
  predicate StopsAt(o: Outcome, t: Trace, cfg: Config, ids: seq<nat>,
                    names: nat -> Option<string>, j: int)
  {
    && 0 <= j < |ids| && o.failedId == Some(ids[j])
    && names(ids[j]).None? && AllNamed(ids[..j], names)
    && o.trace == Trace(t.ledger + LedgerLines(ids[..j], names),
                        t.downloads + AllFetches(cfg, ids[..j]))
  }

  /** Outcome o from trace t is what the accepted ids `ids` call for. */
  predicate Explains(o: Outcome, t: Trace, cfg: Config, ids: seq<nat>,
                     names: nat -> Option<string>)
  {
    && (o.failedId.None? <==> AllNamed(ids, names))
    && (o.failedId.None? ==>
          o.trace == Trace(t.ledger + LedgerLines(ids, names), t.downloads + AllFetches(cfg, ids)))
    && (o.failedId.Some? ==> exists j :: 0 <= j < |ids| && StopsAt(o, t, cfg, ids, names, j))
  }

  /** Where the sweep stops is shifted by one when an accepted, named id is
      put in front. */
  lemma StopsAtCons(o: Outcome, t: Trace, cfg: Config, id: nat, rest: seq<nat>,
                    names: nat -> Option<string>, j: nat)
    requires names(id).Some?
    requires StopsAt(o, Acquire(t, cfg, id, Normalize(names(id).value)), cfg, rest, names, j)
    ensures StopsAt(o, t, cfg, [id] + rest, names, j + 1)
  {
    var ids := [id] + rest;
    assert ids[..j + 1] == [id] + rest[..j];
    assert ids[j + 1] == rest[j];
    AllNamedCons(id, rest[..j], names);
    LedgerLinesCons(id, rest[..j], names);
    AllFetchesCons(cfg, id, rest[..j]);
  }

  /** An accepted, named id in front: the rest is explained from the trace
      that acquiring it leaves. */
  lemma ExplainsCons(o: Outcome, t: Trace, cfg: Config, id: nat, rest: seq<nat>,
                     names: nat -> Option<string>)
    requires names(id).Some?
    requires Explains(o, Acquire(t, cfg, id, Normalize(names(id).value)), cfg, rest, names)
    ensures Explains(o, t, cfg, [id] + rest, names)
  {
    AllNamedCons(id, rest, names);
    if o.failedId.None? {
      LedgerLinesCons(id, rest, names);
      AllFetchesCons(cfg, id, rest);
    } else {
      var t' := Acquire(t, cfg, id, Normalize(names(id).value));
      var j :| 0 <= j < |rest| && StopsAt(o, t', cfg, rest, names, j);
      StopsAtCons(o, t, cfg, id, rest, names, j);
    }
  }

  /** The sweep does what the reference definitions say: it stops at the
      first accepted id without a name, and otherwise has appended one ledger
      line and three downloads per accepted id, in ascending id order. */
  lemma {:induction false} SweepMatchesReference(t: Trace, cfg: Config, lo: nat, hi: int,
                                                 status: nat -> string, names: nat -> Option<string>)
    ensures Explains(Sweep(t, cfg, lo, hi, status, names), t, cfg, AcceptedIds(lo, hi, status), names)
    decreases hi + 1 - lo
  {
    var o, ids := Sweep(t, cfg, lo, hi, status, names), AcceptedIds(lo, hi, status);
    if lo > hi {
      assert ids == [];
      assert t.ledger + [] == t.ledger && t.downloads + [] == t.downloads;
    } else {
      var rest := AcceptedIds(lo + 1, hi, status);
      if !Accepts(status(lo)) {
        assert ids == rest;
        SweepMatchesReference(t, cfg, lo + 1, hi, status, names);
      } else if names(lo).None? {
        assert ids == [lo] + rest && ids[..0] == [];
        assert t.ledger + [] == t.ledger && t.downloads + [] == t.downloads;
        assert LedgerLines([], names) == [];
        assert StopsAt(o, t, cfg, ids, names, 0);
      } else {
        var t' := Acquire(t, cfg, lo, Normalize(names(lo).value));
        assert ids == [lo] + rest;
        assert o == Sweep(t', cfg, lo + 1, hi, status, names);
        SweepMatchesReference(t', cfg, lo + 1, hi, status, names);
        ExplainsCons(o, t, cfg, lo, rest, names);
      }
    }
  }

  /** Download k is the (k mod 3)-th category's download for the (k div 3)-th
      accepted id, and it always fetches that id's requested-tenders URL. */
  lemma {:induction false} FetchesAt(cfg: Config, ids: seq<nat>, k: nat)
    requires k < 3 * |ids|
    ensures |AllFetches(cfg, ids)| == 3 * |ids|
    ensures AllFetches(cfg, ids)[k]
         == Download(RequestedUrl(cfg.baseUrl, ids[k / 3]), Destination(cfg, k % 3))
    decreases |ids|
  {
    if k < 3 {
      if |ids| > 1 {
        FetchesAt(cfg, ids[1..], 0);
      } else {
        assert ids[1..] == [];
      }
    } else {
      FetchesAt(cfg, ids[1..], k - 3);
      assert ids[1..][(k - 3) / 3] == ids[k / 3];
    }
  }

  /** The bid and won URLs, which are built but never fetched, differ from
      every requested URL, which is fetched in their place, and from each
      other, whatever the two ids. */
  lemma UnusedUrlsDiffer(base: string, i: nat, j: nat)
    ensures RequestedUrl(base, i) != BidUrl(base, j)
    ensures RequestedUrl(base, i) != WonUrl(base, j)
    ensures BidUrl(base, i) != WonUrl(base, j)
  {
    var n := |base + "/data/csv/entity/all_tenders_"|;
    assert RequestedUrl(base, i)[n] == 'r';
    assert BidUrl(base, i)[n] == 'b';
    assert BidUrl(base, j)[n] == 'b';
    assert WonUrl(base, j)[n] == 'w';
  }

  /** No download of a run fetches any id's bid or won export. */
  lemma NoBidOrWonFetched(cfg: Config, ids: seq<nat>, j: nat)
    ensures forall d :: d in AllFetches(cfg, ids) ==>
              d.url != BidUrl(cfg.baseUrl, j) && d.url != WonUrl(cfg.baseUrl, j)
  {
    if ids != [] {
      FetchesAt(cfg, ids, 0);
      forall k | 0 <= k < |AllFetches(cfg, ids)|
        ensures AllFetches(cfg, ids)[k].url != BidUrl(cfg.baseUrl, j)
        ensures AllFetches(cfg, ids)[k].url != WonUrl(cfg.baseUrl, j)
      {
        FetchesAt(cfg, ids, k);
        UnusedUrlsDiffer(cfg.baseUrl, ids[k / 3], j);
      }
    }
  }

  /** A ledger line always reads back as the id and the name it was written
      from, whatever characters the name holds: the id has no comma. */
  lemma LedgerLineRoundTrip(id: nat, name: string)
    ensures ParseLedgerLine(LedgerLine(id, name)) == Some((id, name))
  {
    var d, line := Decimal(id), LedgerLine(id, name);
    assert line == d + [','] + (name + "\n");
    var k := IndexOf(line, ',');
    assert line[|d|] == ',';
    assert forall j :: 0 <= j < |d| ==> line[j] == d[j] && line[j] != ',';
    assert k == |d|;
    assert line[..k] == d;
    assert line[k + 1..] == name + "\n";
    assert line[k + 1..|line| - 1] == name;
    DecimalRoundTrip(id);
  }

  lemma FirstIdText()
    ensures Decimal(FirstId) == "10000000"
  {
  }

  lemma ScenarioLedgerLine()
    ensures Puts(LedgerLine(FirstId, "foo_bar")) == "10000000,foo_bar\n"
  {
    FirstIdText();
  }

  /** 200 is accepted and "Foo. Bar" becomes "foo_bar". */
  lemma ScenarioFound(cfg: Config)
    ensures Visit(Trace([], []), cfg, FirstId, "200", Some("Foo. Bar"))
         == Some(Trace(["10000000,foo_bar\n"], Fetches(cfg, FirstId)))
  {
    assert Accepts("200") by {
      assert MatchesAt("200", 0);
    }
    ExampleFooBar();
    ScenarioLedgerLine();
    assert [] + [Puts(LedgerLine(FirstId, "foo_bar"))] == ["10000000,foo_bar\n"];
    assert [] + Fetches(cfg, FirstId) == Fetches(cfg, FirstId);
  }

  /** 404 is rejected: nothing changes. */
  lemma ScenarioNotFound(t: Trace, cfg: Config, name: Option<string>)
    ensures Visit(t, cfg, LastId, "404", name) == Some(t)
  {
    assert !MatchesAt("404", 0);
    assert !Accepts("04");
  }

  /** The two-id scenario: 10000000 answers 200 with name
      "Foo. Bar", 10000001 answers 404. The ledger gets exactly one line and
      the three downloads all fetch 10000000's requested-tenders export. */
  lemma EndToEndScenario(cfg: Config, status: nat -> string, names: nat -> Option<string>)
    requires status(FirstId) == "200" && status(LastId) == "404"
    requires names(FirstId) == Some("Foo. Bar")
    ensures Sweep(Trace([], []), cfg, FirstId, LastId, status, names)
         == Outcome(Trace(["10000000,foo_bar\n"], Fetches(cfg, FirstId)), None)
  {
    var t := Trace(["10000000,foo_bar\n"], Fetches(cfg, FirstId));
    ScenarioFound(cfg);
    ScenarioNotFound(t, cfg, names(LastId));
    assert Sweep(t, cfg, LastId + 1, LastId, status, names) == Outcome(t, None);
  }
}
