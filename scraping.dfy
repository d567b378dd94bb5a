/** `CEUDataScraper::Scraper`: the object that walks the id range, keeps the
    URLs and the display name of the id being visited in its fields, appends
    to the company matrix and issues the downloads. The company matrix file
    is the field `ledger` (one entry per write) and the `wget` calls are the
    field `downloads`. */
module Scraping {
  import opened Options
  import opened Strings
  import opened Naming
  import opened Probe
  import opened Discovery

  class Scraper {
    const baseUrl: string
    const reqDestination: string
    const bidDestination: string
    const wonDestination: string

    /** `@url`, `@url_requested`, `@url_won`, `@url_bid` of the current id. */
    var url: string
    var urlRequested: string
    var urlWon: string
    var urlBid: string
    /** `@company_name`; `None` is Ruby's nil. */
    var companyName: Option<string>
    /** What has been appended to the company matrix, in order. */
    var ledger: seq<string>
    /** The `wget` calls issued, in order. */
    var downloads: seq<Download>

    /** `Scraper.new`: the matrix starts with whatever the file held. */
    constructor(baseUrl: string, reqDestination: string, bidDestination: string,
                wonDestination: string, matrix: seq<string>)
      ensures Cfg() == Config(baseUrl, reqDestination, bidDestination, wonDestination)
      ensures State() == Trace(matrix, [])
      ensures companyName == None
    {
      this.baseUrl := baseUrl;
      this.reqDestination := reqDestination;
      this.bidDestination := bidDestination;
      this.wonDestination := wonDestination;
      url, urlRequested, urlWon, urlBid := [], [], [], [];
      companyName := None;
      ledger := matrix;
      downloads := [];
    }

    function Cfg(): Config {
      Config(baseUrl, reqDestination, bidDestination, wonDestination)
    }

    function State(): Trace
      reads this
    {
      Trace(ledger, downloads)
    }

    /** `detect_redirections` up to its call of `Wrapper.read_wrapper`. The
        status the server answers for an id and the `name` attribute of its
        descriptor are inputs. A missing name raises in `get_company_name`;
        `failedId` is then that id and the loop is abandoned. The run is the
        one the reference `Sweep` describes. */
    method DetectRedirections(status: nat -> string, names: nat -> Option<string>)
      returns (failedId: Option<nat>)
      modifies this
      ensures Outcome(State(), failedId)
           == Sweep(old(State()), Cfg(), FirstId, LastId, status, names)
    {
      var id := FirstId;
      while id <= LastId
        invariant FirstId <= id <= LastId + 1
        invariant Sweep(State(), Cfg(), id, LastId, status, names)
               == Sweep(old(State()), Cfg(), FirstId, LastId, status, names)
        decreases LastId + 1 - id
      {
        url := DescriptorUrl(baseUrl, id);
        urlRequested := RequestedUrl(baseUrl, id);
        urlWon := WonUrl(baseUrl, id);
        urlBid := BidUrl(baseUrl, id);
        if Accepts(status(id)) {
          var raised := GetCompanyName(id, names(id));
          if raised {
            failedId := Some(id);
            return;
          }
        }
        id := id + 1;
      }
      failedId := None;
    }

    /** `get_company_name`: read the name, normalise it with the
        short-circuiting chain of line 161, and record "<id>,<name>\n".
        `raised` is set when the name is nil and nothing else happens. */
    method GetCompanyName(id: nat, name: Option<string>) returns (raised: bool)
      modifies this
      ensures raised <==> name.None?
      ensures raised ==> companyName == None && State() == old(State())
      ensures !raised ==>
        && companyName == Some(Normalize(name.value))
        && ledger == old(ledger) + [LedgerLine(id, Normalize(name.value))]
        && downloads == old(downloads) + [Download(urlRequested, reqDestination),
                                          Download(urlRequested, bidDestination),
                                          Download(urlRequested, wonDestination)]
      ensures url == old(url) && urlRequested == old(urlRequested)
      ensures urlWon == old(urlWon) && urlBid == old(urlBid)
    {
      companyName := name;
      if name.None? {
        return true;
      }
      var s := name.value;
      var undotted := DeleteDotsBang(s);
      if undotted.Some? {
        s := undotted.value;
        var squashed := SquashSpacesBang(s);
        if squashed.Some? {
          s := Downcase(squashed.value);
        }
      }
      companyName := Some(s);
      UpdateMatrix(LedgerLine(id, s));
      return false;
    }

    /** `update_matrix`: `puts` the line to the matrix, then download. */
    method UpdateMatrix(companyInfo: string)
      modifies this
      ensures ledger == old(ledger) + [Puts(companyInfo)]
      ensures downloads == old(downloads) + [Download(urlRequested, reqDestination),
                                             Download(urlRequested, bidDestination),
                                             Download(urlRequested, wonDestination)]
      ensures url == old(url) && urlRequested == old(urlRequested)
      ensures urlWon == old(urlWon) && urlBid == old(urlBid)
      ensures companyName == old(companyName)
    {
      ledger := ledger + [Puts(companyInfo)];
      GetRequestedCsv();
    }

    /** `get_requested_csv`: fetch the requested-tenders export, then chain. */
    method GetRequestedCsv()
      modifies this
      ensures downloads == old(downloads) + [Download(urlRequested, reqDestination),
                                             Download(urlRequested, bidDestination),
                                             Download(urlRequested, wonDestination)]
      ensures ledger == old(ledger) && companyName == old(companyName)
      ensures url == old(url) && urlRequested == old(urlRequested)
      ensures urlWon == old(urlWon) && urlBid == old(urlBid)
    {
      downloads := downloads + [Download(urlRequested, reqDestination)];
      GetBidCsv();
    }

    /** `get_bid_csv`: fetches `@url_requested`, not `@url_bid`. */
    method GetBidCsv()
      modifies this
      ensures downloads == old(downloads) + [Download(urlRequested, bidDestination),
                                             Download(urlRequested, wonDestination)]
      ensures ledger == old(ledger) && companyName == old(companyName)
      ensures url == old(url) && urlRequested == old(urlRequested)
      ensures urlWon == old(urlWon) && urlBid == old(urlBid)
    {
      downloads := downloads + [Download(urlRequested, bidDestination)];
      GetWonCsv();
    }

    /** `get_won_csv`: fetches `@url_requested`, not `@url_won`. */
    method GetWonCsv()
      modifies this
      ensures downloads == old(downloads) + [Download(urlRequested, wonDestination)]
      ensures ledger == old(ledger) && companyName == old(companyName)
      ensures url == old(url) && urlRequested == old(urlRequested)
      ensures urlWon == old(urlWon) && urlBid == old(urlBid)
    {
      downloads := downloads + [Download(urlRequested, wonDestination)];
    }
  }
}
