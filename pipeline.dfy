/** The `Wrapper` chain run as one straight line: `scrape_wrapper` builds the
    scraper and sweeps the ids, `read_wrapper` lists the three download
    directories, `fill_wrapper` appends the listed files to the masters. An
    exception in the sweep (a descriptor without a name) ends the run before
    the listing; one in the aggregation (a listed file gone) ends it there. */
module Pipeline {
  import opened Options
  import opened Strings
  import opened Discovery
  import opened Scraping
  import opened Listing
  import opened Aggregation

  /** Everything the run leaves behind: the company matrix, the downloads
      issued and the three master files; and how it ended: the id whose
      missing name raised in the sweep, or the listed path whose missing
      file raised in the aggregation (both `None` for a complete run). */
  datatype Result = Result(
    ledger: seq<string>,
    downloads: seq<Download>,
    reqMaster: string,
    bidMaster: string,
    wonMaster: string,
    failedId: Option<nat>,
    missing: Option<string>)

  /** The whole run. The server's status and name for each id, the output of
      `find` for each directory and the file system read by the aggregation
      are inputs; `matrix` and `masters` are what those files held before. */
  method Run(cfg: Config, matrix: seq<string>, status: nat -> string,
             names: nat -> Option<string>, find: string -> string,
             fs: map<string, string>, masters: (string, string, string))
    returns (r: Result)
    ensures var o := Sweep(Trace(matrix, []), cfg, FirstId, LastId, status, names);
      && r.ledger == o.trace.ledger && r.downloads == o.trace.downloads
      && r.failedId == o.failedId
      && (o.failedId.Some? ==>
            && r.reqMaster == masters.0 && r.bidMaster == masters.1 && r.wonMaster == masters.2
            && r.missing == None)
    ensures Sweep(Trace(matrix, []), cfg, FirstId, LastId, status, names).failedId.None? ==>
      var gr := Gather(ChompAll(Lines(find(cfg.reqDestination))), fs);
      var gb := Gather(ChompAll(Lines(find(cfg.bidDestination))), fs);
      var gw := Gather(ChompAll(Lines(find(cfg.wonDestination))), fs);
      && r.reqMaster == masters.0 + gr.text
      && r.bidMaster == masters.1 + (if gr.missing.None? then gb.text else [])
      && r.wonMaster == masters.2 + (if gr.missing.None? && gb.missing.None? then gw.text else [])
      && r.missing == (if gr.missing.Some? then gr.missing
                       else if gb.missing.Some? then gb.missing else gw.missing)
  {
    var scraper := new Scraper(cfg.baseUrl, cfg.reqDestination, cfg.bidDestination,
                               cfg.wonDestination, matrix);
    var failedId := scraper.DetectRedirections(status, names);
    if failedId.Some? {
      return Result(scraper.ledger, scraper.downloads, masters.0, masters.1, masters.2,
                    failedId, None);
    }
    var reader := new FolderReader(cfg.reqDestination, cfg.bidDestination, cfg.wonDestination);
    reader.ListRequested(find);
    var filler := new CSVFiller(reader.requestedFiles, reader.bidFiles, reader.wonFiles, fs,
                                masters.0, masters.1, masters.2);
    var missing := filler.CollectRequested();
    r := Result(scraper.ledger, scraper.downloads,
                filler.reqMaster, filler.bidMaster, filler.wonMaster, None, missing);
  }

  /** The end-to-end scenario: 10000000 answers 200 with the name "Foo. Bar",
      10000001 answers 404. The matrix gains "10000000,foo_bar\n", the
      requested export is fetched into each directory, and each directory
      lists one file. A master gains that file iff it is larger than 73
      bytes. */
  lemma EndToEnd(cfg: Config, status: nat -> string, names: nat -> Option<string>,
                 find: string -> string, fs: map<string, string>,
                 req: string, bid: string, won: string)
    requires status(FirstId) == "200" && status(LastId) == "404"
    requires names(FirstId) == Some("Foo. Bar")
    requires find(cfg.reqDestination) == req + "\n" && '\n' !in req && req in fs
    requires find(cfg.bidDestination) == bid + "\n" && '\n' !in bid && bid in fs
    requires find(cfg.wonDestination) == won + "\n" && '\n' !in won && won in fs
    requires req != [] && req[|req| - 1] != '\r'
    requires bid != [] && bid[|bid| - 1] != '\r'
    requires won != [] && won[|won| - 1] != '\r'
    ensures Sweep(Trace([], []), cfg, FirstId, LastId, status, names)
         == Outcome(Trace(["10000000,foo_bar\n"], Fetches(cfg, FirstId)), None)
    ensures Gather(ChompAll(Lines(find(cfg.reqDestination))), fs)
         == Gathered(Contribution(fs[req]), None)
    ensures Gather(ChompAll(Lines(find(cfg.bidDestination))), fs)
         == Gathered(Contribution(fs[bid]), None)
    ensures Gather(ChompAll(Lines(find(cfg.wonDestination))), fs)
         == Gathered(Contribution(fs[won]), None)
  {
    EndToEndScenario(cfg, status, names);
    SingleFileListing(req);
    SingleFileListing(bid);
    SingleFileListing(won);
    OneFile(req, fs);
    OneFile(bid, fs);
    OneFile(won, fs);
  }

  lemma OneFile(path: string, fs: map<string, string>)
    requires path in fs
    ensures Gather([path], fs) == Gathered(Contribution(fs[path]), None)
  {
    assert [path][..0] == [];
    assert [] + Contribution(fs[path]) == Contribution(fs[path]);
  }
}
