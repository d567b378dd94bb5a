# CEUDataScraper in Dafny

A model of the pipeline of `CEUDataScraper.rb`, a Ruby script that harvests
a public-procurement portal in three stages:

1. **Discovery and acquisition** (`Scraper`). Ids 10000000..10000001 are
   walked in ascending order. Each id's descriptor URL is probed. The status
   code is accepted when it matches `/20\d/`. For an accepted id, the
   script:
   - reads the descriptor's `name` attribute;
   - normalises it with `gsub!(/\./, '') && gsub!(/ +/, '_') && downcase!`;
   - appends `"<id>,<name>\n"` to the company matrix;
   - issues three `wget` downloads.
2. **Listing** (`FolderReader`). The output of `find <dir> -type f` for each
   of the three download directories is split into lines and chomped.
3. **Aggregation** (`CSVFiller`). For the categories requested, bid and won,
   in that order, every listed file larger than 73 bytes is appended line by
   line to the category's master file. Smaller files are skipped.

The outside world is modelled as inputs:
- the HTTP status and the `name` attribute of each id are functions of the id;
- the `find` output is a function of the directory;
- the file system read by the aggregation is a map from path to contents.

What the run writes is modelled as state:
- the company matrix is a sequence of appended lines;
- the downloads are a log of (url, directory) pairs;
- the master files are strings that only grow.

Modules, one per file:

| file | module | contents |
|---|---|---|
| options.dfy | `Options` | `Option` (Ruby's `nil` is `None`) |
| strings.dfy | `Strings` | decimal text of an id, `each_line`, `chomp`, ASCII `downcase` |
| naming.dfy | `Naming` | the name normalisation of line 161, with its short circuit |
| probe.dfy | `Probe` | the `/20\d/` acceptance test |
| discovery.dfy | `Discovery` | reference functions for one visit (`Visit`) and the sweep (`Sweep`), with their properties |
| scraping.dfy | `Scraping` | class `Scraper`: the imperative loop and the chained download methods, proved against `Sweep` |
| listing.dfy | `Listing` | class `FolderReader` |
| aggregation.dfy | `Aggregation` | class `CSVFiller`, with the reference function `Gather` and its properties |
| pipeline.dfy | `Pipeline` | the `Wrapper` chain as one straight-line run, and the end-to-end scenario |

Where the code does something a reader might not expect, the model follows the code:

- **Partial normalisation.** A name is fully normalised (dots removed, runs
  of spaces turned into one `_`, lower-cased) only when it holds both a dot
  and a space. With no dot it is kept unchanged. With a dot but no space,
  only the dots go and the capitals stay. A reader of line 161 might
  expect all three steps always to apply.
- **Status test.** Acceptance is `/20\d/`, not the whole 2xx class. Among
  three-digit codes only 200–209 pass (`Probe.ThreeDigitStatus`).
- **Download URLs.** The bid and won downloads fetch the requested-tenders
  URL. The bid and won URLs are built but never used: no download of a run
  fetches any of them (`Discovery.NoBidOrWonFetched`). The model keeps this
  behaviour.
- **Missing name.** A descriptor with no `name` attribute makes
  `get_company_name` raise, which ends the whole run. Lines and downloads
  made before that stay. `Pipeline.Run` reports the failing id.
- **Missing listed file.** A listed file that is gone when `File.size` runs
  also raises and ends the run. Earlier appends to the masters stay.
  `Pipeline.Run` reports the missing path.
- **Aggregating twice.** Running the aggregation a second time over the same
  files appends everything again, as the ensures of
  `Aggregation.CSVFiller.CollectRequested` shows.

## Model

| member | source | states |
|---|---|---|
| Strings.Decimal | CEUDataScraper.rb:162 | the interpolated id is a non-empty string of decimal digits, one digit exactly for ids below 10, with no leading zero for a positive id |
| Strings.DecimalRoundTrip | CEUDataScraper.rb:162 | the id written in a ledger line reads back as the same number |
| Strings.Lines | CEUDataScraper.rb:89 | `each_line` yields no piece for empty text, at least one otherwise, and never more pieces than characters; what the pieces are is stated by `Strings.LinesConcat` and `Strings.LinesShape` |
| Strings.LinesConcat | CEUDataScraper.rb:89 | the pieces yielded by `each_line` concatenate back to the text: nothing is lost or reordered |
| Strings.LinesShape | CEUDataScraper.rb:89 | every piece is non-empty with a newline at most at its end; every piece but the last ends in a newline, and all do when the text does |
| Strings.LinesSnoc | CEUDataScraper.rb:89 | appending one line to text that ends at a line boundary adds exactly that line to what `each_line` yields |
| Strings.Chomp | CEUDataScraper.rb:90 | `chomp` changes the text iff it ends in "\n" or "\r"; a final "\r\n" goes as one unit, and otherwise a final "\n" or "\r" goes alone |
| Strings.ChompAll | CEUDataScraper.rb:89-91 | one chomped entry per piece, same order |
| Strings.Downcase | CEUDataScraper.rb:161 | `downcase` keeps the length, maps each character by ASCII lower-casing and leaves no upper-case letter |
| Strings.DowncaseKeepsOthers | CEUDataScraper.rb:161 | a character that is not a letter occurs after lower-casing iff it occurred before |
| Naming.DeleteDotsBang | CEUDataScraper.rb:161 | `gsub!(/\./, '')` answers nil iff the name has no dot, and otherwise a text without dots |
| Naming.DeleteDots | CEUDataScraper.rb:161 | dot removal never lengthens the text, and keeps its length iff it holds no dot; its meaning is stated by `Naming.DeleteDotsRemovesAll`, `Naming.DeleteDotsKeeps` and `Naming.DeleteDotsNoDot` |
| Naming.DeleteDotsRemovesAll | CEUDataScraper.rb:161 | no dot survives dot removal |
| Naming.DeleteDotsKeeps | CEUDataScraper.rb:161 | every other character occurs after dot removal iff it occurred before |
| Naming.DeleteDotsNoDot | CEUDataScraper.rb:161 | a text without dots is unchanged by dot removal |
| Naming.DeleteDotsAppend | CEUDataScraper.rb:161 | dot removal works piece by piece over a concatenation |
| Naming.SquashSpaces | CEUDataScraper.rb:161 | `gsub(/ +/, '_')` leaves no space |
| Naming.SquashSpacesBang | CEUDataScraper.rb:161 | `gsub!(/ +/, '_')` answers nil iff the text has no space |
| Naming.SquashFrom | CEUDataScraper.rb:161 | the space substitution never lengthens the text; its meaning is stated by `Naming.SquashFromRemovesSpaces`, `Naming.SquashAppend` and `Naming.SquashRun` |
| Naming.SquashFromRemovesSpaces | CEUDataScraper.rb:161 | the left-to-right scan of the space substitution emits no space, whatever its starting state |
| Naming.SquashFromKeeps | CEUDataScraper.rb:161 | the space substitution introduces no character other than `_` |
| Naming.SquashAppend | CEUDataScraper.rb:161 | the substitution is compositional: the second part of a concatenation is scanned in the state the first part left |
| Naming.SquashSpacesRun | CEUDataScraper.rb:161 | a run of k >= 1 spaces yields one `_`, or nothing if a run is already open |
| Naming.SquashRun | CEUDataScraper.rb:161 | a maximal run of k >= 1 spaces becomes exactly one `_`, and the text on either side is substituted on its own |
| Naming.SquashNoSpace | CEUDataScraper.rb:161 | a text without spaces is unchanged by the substitution |
| Naming.SquashTwoWords | CEUDataScraper.rb:161 | two words joined by one space come out joined by `_` |
| Naming.Normalize | CEUDataScraper.rb:161 | the value of `@company_name` after the `&&` chain never contains a dot |
| Naming.NormalizeCases | CEUDataScraper.rb:161 | no dot: the name is unchanged; a dot but no space: only the dots go; both: dot removal, space substitution and lower-casing all apply |
| Naming.NormalizeFull | CEUDataScraper.rb:161 | with a dot and a space the result has no dot, no space and no upper-case letter |
| Naming.NormalizeDotOnly | CEUDataScraper.rb:161 | with a dot and no space the capitals stay: every character other than the dot occurs in the result iff it occurs in the name |
| Naming.NormalizeIdempotent | CEUDataScraper.rb:161 | normalising twice is normalising once |
| Naming.ExampleFooBar | CEUDataScraper.rb:161 | "Foo. Bar" becomes "foo_bar" |
| Naming.ExampleAcmeCorp | CEUDataScraper.rb:161 | "Acme Corp." becomes "acme_corp" |
| Naming.ExampleNoDot | CEUDataScraper.rb:161 | "acme_corp" and "Acme Corp" are left as they are |
| Naming.ExampleDotNoSpace | CEUDataScraper.rb:161 | "A.B" becomes "AB", not lower-cased |
| Probe.Accepts | CEUDataScraper.rb:141 | a status text shorter than three characters is never accepted; that the test is the unanchored search is stated by `Probe.AcceptsIffSomeMatch` |
| Probe.AcceptsIffSomeMatch | CEUDataScraper.rb:141 | the status test holds iff "20" followed by a digit occurs at some position of the code |
| Probe.ThreeDigitStatus | CEUDataScraper.rb:141 | a three-digit code is accepted iff it is between 200 and 209 |
| Probe.SuccessClassGap | CEUDataScraper.rb:141 | 204 is accepted and 226, a 2xx code, is not |
| Discovery.Puts | CEUDataScraper.rb:168 | `puts` output ends in a newline: text that already has one is written unchanged, other text gains exactly one |
| Discovery.LedgerLine | CEUDataScraper.rb:162-168 | the company info line already ends in a newline, so `puts` writes it unchanged |
| Discovery.LedgerLineRoundTrip | CEUDataScraper.rb:162 | a ledger line parses back to its id and name, whatever the name holds |
| Discovery.DescriptorUrl | CEUDataScraper.rb:134 | no ensures of its own; only `Scraping.Scraper.DetectRedirections` uses it, to set the `url` field, which nothing in the model reads because the HTTP requests are inputs |
| Discovery.RequestedUrl | CEUDataScraper.rb:135 | no ensures of its own; `Discovery.UnusedUrlsDiffer` states that it differs from the bid and won URLs, and `Discovery.FetchesAt` that every download fetches it |
| Discovery.WonUrl | CEUDataScraper.rb:136 | no ensures of its own; `Discovery.NoBidOrWonFetched` states that no download of a run fetches it |
| Discovery.BidUrl | CEUDataScraper.rb:137 | no ensures of its own; `Discovery.NoBidOrWonFetched` states that no download of a run fetches it |
| Discovery.Fetches | CEUDataScraper.rb:172-188 | no ensures of its own; `Discovery.FetchesAt` states which URL each download of the run fetches and into which directory |
| Discovery.Acquire | CEUDataScraper.rb:162-188 | no ensures of its own; `Discovery.Visit` states that an accepted, named id is acquired, and `Discovery.SweepMatchesReference` what the acquisitions of a run add up to |
| Discovery.Visit | CEUDataScraper.rb:139-146 | a rejected id changes nothing; an accepted id fails iff it has no name; otherwise it appends exactly its normalised ledger line and the three fetches of its requested URL after the earlier ones |
| Discovery.Sweep | CEUDataScraper.rb:133-147 | the loop only appends to the ledger and the download log, and a failure is reported at an id within the range |
| Discovery.AcceptedIds | CEUDataScraper.rb:133-141 | the accepted ids of a range: exactly those whose status passes, strictly ascending |
| Discovery.SweepMatchesReference | CEUDataScraper.rb:133-147 | the loop appends one line and three downloads per accepted id, in ascending order, unless an accepted id has no name; it then stops there with exactly the earlier ids acquired |
| Discovery.FetchesAt | CEUDataScraper.rb:172-188 | the k-th download of the run fetches the requested URL of accepted id k/3 into the req, bid or won directory as k mod 3 says |
| Discovery.UnusedUrlsDiffer | CEUDataScraper.rb:135-137 | a requested URL differs from every bid and won URL, whatever the two ids, and bid URLs differ from won URLs |
| Discovery.NoBidOrWonFetched | CEUDataScraper.rb:172-188 | no download issued for a list of accepted ids fetches any id's bid or won URL |
| Discovery.ScenarioLedgerLine | CEUDataScraper.rb:162-168 | the ledger line of 10000000 named "foo_bar" is "10000000,foo_bar\n" |
| Discovery.ScenarioFound | CEUDataScraper.rb:139-168 | 10000000 answering "200" with name "Foo. Bar" adds "10000000,foo_bar\n" and its three downloads |
| Discovery.ScenarioNotFound | CEUDataScraper.rb:141-146 | 10000001 answering "404" changes nothing |
| Discovery.EndToEndScenario | CEUDataScraper.rb:132-188 | the sweep over both ids ends with exactly one ledger line and three downloads of 10000000's requested export, and no failure |
| Scraping.Scraper.constructor | CEUDataScraper.rb:123-130 | a new scraper has the given configuration, the matrix as it was, no downloads and no name |
| Scraping.Scraper.DetectRedirections | CEUDataScraper.rb:132-147 | the loop's final matrix, downloads and failing id are exactly those of the reference sweep |
| Scraping.Scraper.GetCompanyName | CEUDataScraper.rb:157-165 | a nil name raises with nothing written; otherwise `@company_name` is the normalised name and exactly its line and three downloads of `@url_requested` are appended |
| Scraping.Scraper.UpdateMatrix | CEUDataScraper.rb:167-170 | the matrix gains `puts` of the line, then the three downloads follow |
| Scraping.Scraper.GetRequestedCsv | CEUDataScraper.rb:172-176 | downloads `@url_requested` into the req, bid and won directories, in that order |
| Scraping.Scraper.GetBidCsv | CEUDataScraper.rb:178-182 | downloads `@url_requested`, not `@url_bid`, into the bid and then won directories |
| Scraping.Scraper.GetWonCsv | CEUDataScraper.rb:184-188 | downloads `@url_requested`, not `@url_won`, into the won directory |
| Listing.EachLineChomped | CEUDataScraper.rb:89-91 | the loop yields one chomped entry per line of the output, in order |
| Listing.FolderReader.constructor | CEUDataScraper.rb:79-84 | a new reader has the given directories |
| Listing.FolderReader.ListRequested | CEUDataScraper.rb:86-93 | each of the three lists is the chomped lines of `find` on its own directory |
| Listing.FolderReader.ListBid | CEUDataScraper.rb:95-102 | the bid and won lists are set from their directories; the requested list is unchanged |
| Listing.FolderReader.ListWon | CEUDataScraper.rb:104-110 | the won list is set from its directory; the other lists are unchanged |
| Listing.LinesChars | CEUDataScraper.rb:89 | every character of a listed line comes from the `find` output |
| Listing.ChompLine | CEUDataScraper.rb:90 | a line ending in "\n" without "\r" is its chomped form plus "\n" |
| Listing.UnlinesChomped | CEUDataScraper.rb:89-91 | chomped complete lines joined with newlines give back their concatenation |
| Listing.ListingRoundTrip | CEUDataScraper.rb:88-91 | for output made of complete lines without "\r", the entries joined with newlines are the output itself |
| Listing.EntriesHaveNoNewline | CEUDataScraper.rb:89-91 | no entry keeps a newline |
| Listing.OneLine | CEUDataScraper.rb:89 | a single line is yielded whole |
| Listing.ChompNewline | CEUDataScraper.rb:90 | `chomp` undoes one appended "\n" |
| Listing.SingleFileListing | CEUDataScraper.rb:88-91 | a directory holding one file lists exactly its path |
| Aggregation.CSVFiller.constructor | CEUDataScraper.rb:14-22 | a new filler holds the given lists, file system and masters |
| Aggregation.CSVFiller.Append | CEUDataScraper.rb:30 | one write appends the line to its category's master and to no other |
| Aggregation.CSVFiller.CopyLines | CEUDataScraper.rb:29-31 | writing a file line by line appends the whole file, verbatim, to its master only |
| Aggregation.CSVFiller.Collect | CEUDataScraper.rb:25-37 | a category's master gains exactly the reference text of its files; the missing path is the reference one; other masters are unchanged |
| Aggregation.CSVFiller.CollectRequested | CEUDataScraper.rb:24-39 | requested, then bid, then won are aggregated, each only if no earlier one raised |
| Aggregation.CSVFiller.CollectBid | CEUDataScraper.rb:41-56 | bid, then won if bid raised nothing; the requested master is unchanged |
| Aggregation.CSVFiller.CollectWon | CEUDataScraper.rb:58-72 | won only; the requested and bid masters are unchanged |
| Aggregation.Serviceable | CEUDataScraper.rb:27 | no ensures of its own; `Aggregation.ThresholdBoundary` states where the size test switches |
| Aggregation.Contribution | CEUDataScraper.rb:27-31 | a file reaches its master whole or not at all; `Aggregation.ThresholdBoundary` and `Aggregation.GatherMatchesReference` state which |
| Aggregation.Gather | CEUDataScraper.rb:25-37 | the path reported as raising is a listed path missing from the file system; what is gathered is stated by `Aggregation.GatherMatchesReference` and `Aggregation.GatherMissingIff` |
| Aggregation.GatherSticky | CEUDataScraper.rb:27 | once a listed file was missing, later files change nothing |
| Aggregation.GatherAppend | CEUDataScraper.rb:25-37 | aggregating a + b is aggregating a, then b |
| Aggregation.GatherMissingIff | CEUDataScraper.rb:27 | aggregation raises iff some listed path is missing |
| Aggregation.StopsAtFirstMissing | CEUDataScraper.rb:25-37 | it raises at the first missing path, with exactly the files before it processed |
| Aggregation.QualifyingSnoc | CEUDataScraper.rb:27 | a further file adds its contents to the qualifying list iff it is larger than 73 bytes |
| Aggregation.GatherMatchesReference | CEUDataScraper.rb:24-37 | when every listed file exists, the master gains the concatenated contents of exactly the files larger than 73 bytes, in listing order |
| Aggregation.ThresholdBoundary | CEUDataScraper.rb:27 | a 73-byte file is skipped and a 74-byte file is appended |
| Aggregation.ExampleTwoFiles | CEUDataScraper.rb:25-31 | with files of 80 and 50 bytes, only the first reaches the master |
| Pipeline.Run | CEUDataScraper.rb:192-223 | the run's matrix, downloads and failing id are the reference sweep's; after a failed sweep the masters are untouched and no path is reported, otherwise they gain the reference aggregation of the listed files and the first missing path, if any, is reported |
| Pipeline.OneFile | CEUDataScraper.rb:25-31 | aggregating one existing file adds its contribution |
| Pipeline.EndToEnd | CEUDataScraper.rb:24-188 | 10000000 answering 200 as "Foo. Bar" and 10000001 answering 404 give one ledger line "10000000,foo_bar\n" and three downloads; each directory listing one file, each master gains that file iff it is larger than 73 bytes |

The proof steps `Discovery.AllNamedCons`, `Discovery.LedgerLinesCons`,
`Discovery.AllFetchesCons`, `Discovery.StopsAtCons`, `Discovery.ExplainsCons`
and `Naming.SquashRunClosed` have no row: each unfolds one step of a
reference definition for the lemma that uses it.

## Left out

- HTTP transport (`Net::HTTP.get_response`, `open-uri`, lines 140 and 158). The status code and the `name` attribute are inputs. A network error on the probe raises in the code and ends the run; the model's status input always answers.
- XML parsing with Nokogiri (lines 158 and 160). Only the extracted `name` attribute is modelled, with nil for a missing one. Malformed XML and a missing `entity` element are not modelled.
- The `wget` and `find` processes (lines 88, 97, 106, 174, 180, 186). A download is an entry in a log, and `find`'s output is an input. Download failures are not modelled, and neither are shell quoting and injection.
- The link between the downloads issued, the files `find` lists and the contents the aggregation reads. These are three independent inputs, because the file system and the remote server are not modelled.
- The file system is a map from path to contents, one character per byte. It is a snapshot, so the two `File.size` calls per file see the same size, and the `else` branch of lines 34-35, 51-52 and 68-69 is unreachable (`assert false` there). The map is not updated by the master appends; the masters are not in the listed directories.
- Logging (`Logger`, lines 15, 26, 28, 33, 35 and others) has no effect on the modelled state.
- The hard-coded paths (lines 19-21, 218-222) are configuration values passed in.
- Ruby's `downcase!` folds the case of all Unicode letters. Strings.Downcase folds ASCII letters only.
- The `Wrapper` calls (lines 149-153, 111-115) that chain the stages become the straight line of `Pipeline.Run`. The tail calls inside a class (`collect_bid`, `list_bid`, `get_bid_csv` and so on) stay as calls.
- Scraping.Scraper.DetectRedirections: does not state the final values of the `@url*` fields and of `@company_name`, which nothing reads after the loop.
