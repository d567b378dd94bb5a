/** `CEUDataScraper::CSVFiller`: for each category in the order requested,
    bid, won, go through its listed files; a file of more than 73 bytes is
    copied line by line onto the end of the category's master file, a
    smaller one is skipped. The file system is a map from path to contents
    (one character per byte); a listed path missing from it makes
    `File.size` raise, which ends the run. */
module Aggregation {
  import opened Options
  import opened Strings

  /** The size limit of lines 27, 44 and 61: a file must be larger. */
  const Threshold: nat := 73

  datatype Category = Requested | Bid | Won

  /** `File.size(file) > 73`. */
  predicate Serviceable(contents: string) {
    |contents| > Threshold
  }

  /** What one file adds to its master. */
  function Contribution(contents: string): (r: string)
    ensures r == contents || r == []
  {
    if Serviceable(contents) then contents else []
  }

  /** The text a `collect_*` loop appends, and the path that made it raise. */
  datatype Gathered = Gathered(text: string, missing: Option<string>)

  /** The loop of one `collect_*` over `paths`, stated from its last step:
      nothing more happens once a path was missing. */
  function Gather(paths: seq<string>, fs: map<string, string>): (g: Gathered)
    ensures g.missing.Some? ==> g.missing.value in paths && g.missing.value !in fs
    decreases |paths|
  {
    if paths == [] then Gathered([], None)
    else
      var g := Gather(paths[..|paths| - 1], fs);
      var p := paths[|paths| - 1];
      if g.missing.Some? then g
      else if p !in fs then Gathered(g.text, Some(p))
      else Gathered(g.text + Contribution(fs[p]), None)
  }

  /** Reference definition: the contents of the serviceable files, in
      listing order. */
  function Qualifying(paths: seq<string>, fs: map<string, string>): seq<string>
    requires forall i :: 0 <= i < |paths| ==> paths[i] in fs
    decreases |paths|
  {
    if paths == [] then []
    else (if Serviceable(fs[paths[0]]) then [fs[paths[0]]] else [])
         + Qualifying(paths[1..], fs)
  }

  class CSVFiller {
    const requestedFiles: seq<string>
    const bidFiles: seq<string>
    const wonFiles: seq<string>
    /** The file system as the listed files are read. */
    const fs: map<string, string>

    /** The contents of `req_master.csv`, `bid_master.csv`, `won_master.csv`. */
    var reqMaster: string
    var bidMaster: string
    var wonMaster: string

    constructor(requestedFiles: seq<string>, bidFiles: seq<string>, wonFiles: seq<string>,
                fs: map<string, string>, reqMaster: string, bidMaster: string, wonMaster: string)
      ensures this.requestedFiles == requestedFiles && this.bidFiles == bidFiles
      ensures this.wonFiles == wonFiles && this.fs == fs
      ensures this.reqMaster == reqMaster && this.bidMaster == bidMaster
      ensures this.wonMaster == wonMaster
    {
      this.requestedFiles := requestedFiles;
      this.bidFiles := bidFiles;
      this.wonFiles := wonFiles;
      this.fs := fs;
      this.reqMaster := reqMaster;
      this.bidMaster := bidMaster;
      this.wonMaster := wonMaster;
    }

    function Files(c: Category): seq<string> {
      match c
      case Requested => requestedFiles
      case Bid => bidFiles
      case Won => wonFiles
    }

    function Master(c: Category): string
      reads this
    {
      match c
      case Requested => reqMaster
      case Bid => bidMaster
      case Won => wonMaster
    }

    /** `File.open(master, "a") { |m| m.write(line) }`. */
    method Append(c: Category, line: string)
      modifies this
      ensures Master(c) == old(Master(c)) + line
      ensures forall d :: d != c ==> Master(d) == old(Master(d))
    {
      match c
      case Requested => reqMaster := reqMaster + line;
      case Bid => bidMaster := bidMaster + line;
      case Won => wonMaster := wonMaster + line;
    }

    /** `File.open(file, "r").each_line { |line| ... }` appending each line
        to the master: the master gains the whole file. */
    method CopyLines(c: Category, contents: string)
      modifies this
      ensures Master(c) == old(Master(c)) + contents
      ensures forall d :: d != c ==> Master(d) == old(Master(d))
    {
      var lines := Lines(contents);
      for j := 0 to |lines|
        invariant Master(c) == old(Master(c)) + Concat(lines[..j])
        invariant forall d :: d != c ==> Master(d) == old(Master(d))
      {
        Append(c, lines[j]);
        ConcatSnoc(lines[..j], lines[j]);
        assert lines[..j + 1] == lines[..j] + [lines[j]];
      }
      assert lines[..|lines|] == lines;
      LinesConcat(contents);
    }

    /** The loop shared by `collect_requested`, `collect_bid` and
        `collect_won`, without the call that chains to the next category. */
    method Collect(c: Category) returns (missing: Option<string>)
      modifies this
      ensures Master(c) == old(Master(c)) + Gather(Files(c), fs).text
      ensures missing == Gather(Files(c), fs).missing
      ensures forall d :: d != c ==> Master(d) == old(Master(d))
    {
      var files := Files(c);
      for i := 0 to |files|
        invariant Master(c) == old(Master(c)) + Gather(files[..i], fs).text
        invariant Gather(files[..i], fs).missing.None?
        invariant forall d :: d != c ==> Master(d) == old(Master(d))
      {
        var file := files[i];
        assert files[..i + 1][..i] == files[..i];
        if file !in fs {
          missing := Some(file);
          GatherSticky(files[..i + 1], files[i + 1..], fs);
          assert files[..i + 1] + files[i + 1..] == files;
          return;
        }
        var contents := fs[file];
        if |contents| > Threshold {
          CopyLines(c, contents);
        } else if |contents| <= Threshold {
          // "File size indicates lack of serviceable records"
        } else {
          assert false;
        }
      }
      assert files[..|files|] == files;
      missing := None;
    }

    /** `collect_requested`, which goes on with `collect_bid` and
        `collect_won` unless a missing file raised. */
    method CollectRequested() returns (missing: Option<string>)
      modifies this
      ensures var gr, gb, gw := Gather(requestedFiles, fs), Gather(bidFiles, fs), Gather(wonFiles, fs);
        && reqMaster == old(reqMaster) + gr.text
        && bidMaster == old(bidMaster) + (if gr.missing.None? then gb.text else [])
        && wonMaster == old(wonMaster)
                        + (if gr.missing.None? && gb.missing.None? then gw.text else [])
        && missing == (if gr.missing.Some? then gr.missing
                       else if gb.missing.Some? then gb.missing else gw.missing)
    {
      missing := Collect(Requested);
      assert Master(Bid) == old(Master(Bid)) && Master(Won) == old(Master(Won));
      if missing.None? {
        missing := CollectBid();
      } else {
        assert bidMaster + [] == bidMaster && wonMaster + [] == wonMaster;
      }
    }

    /** `collect_bid`, which goes on with `collect_won`. */
    method CollectBid() returns (missing: Option<string>)
      modifies this
      ensures var gb, gw := Gather(bidFiles, fs), Gather(wonFiles, fs);
        && reqMaster == old(reqMaster)
        && bidMaster == old(bidMaster) + gb.text
        && wonMaster == old(wonMaster) + (if gb.missing.None? then gw.text else [])
        && missing == (if gb.missing.Some? then gb.missing else gw.missing)
    {
      missing := Collect(Bid);
      assert Master(Requested) == old(Master(Requested)) && Master(Won) == old(Master(Won));
      if missing.None? {
        missing := CollectWon();
      } else {
        assert wonMaster + [] == wonMaster;
      }
    }

    /** `collect_won`. */
    method CollectWon() returns (missing: Option<string>)
      modifies this
      ensures reqMaster == old(reqMaster) && bidMaster == old(bidMaster)
      ensures wonMaster == old(wonMaster) + Gather(wonFiles, fs).text
      ensures missing == Gather(wonFiles, fs).missing
    {
      missing := Collect(Won);
      assert Master(Requested) == old(Master(Requested));
      assert Master(Bid) == old(Master(Bid));
    }
  }

  // ---------------------------------------------------------------------
  // Properties

  /** Once a path was missing, later paths change nothing. */
  lemma {:induction false} GatherSticky(a: seq<string>, b: seq<string>, fs: map<string, string>)
    requires Gather(a, fs).missing.Some?
    ensures Gather(a + b, fs) == Gather(a, fs)
    decreases |b|
  {
    if b == [] {
      assert a + b == a;
    } else {
      var b' := b[..|b| - 1];
      GatherSticky(a, b', fs);
      assert (a + b)[..|a + b| - 1] == a + b';
    }
  }

  /** The loop over a + b is the loop over a, then over b if a raised
      nothing. */
  lemma {:induction false} GatherAppend(a: seq<string>, b: seq<string>, fs: map<string, string>)
    requires Gather(a, fs).missing.None?
    ensures Gather(a + b, fs)
         == Gathered(Gather(a, fs).text + Gather(b, fs).text, Gather(b, fs).missing)
    decreases |b|
  {
    if b == [] {
      assert a + b == a;
    } else {
      var b' := b[..|b| - 1];
      GatherAppend(a, b', fs);
      assert (a + b)[..|a + b| - 1] == a + b';
      var gb' := Gather(b', fs);
      if gb'.missing.None? && b[|b| - 1] in fs {
        var x := Contribution(fs[b[|b| - 1]]);
        assert Gather(a, fs).text + gb'.text + x == Gather(a, fs).text + (gb'.text + x);
      }
    }
  }

  /** The loop raises iff some listed path is missing from the file system. */
  lemma {:induction false} GatherMissingIff(paths: seq<string>, fs: map<string, string>)
    ensures Gather(paths, fs).missing.None? <==> forall i :: 0 <= i < |paths| ==> paths[i] in fs
    decreases |paths|
  {
    if paths != [] {
      var init := paths[..|paths| - 1];
      GatherMissingIff(init, fs);
      if Gather(paths, fs).missing.None? {
        forall i | 0 <= i < |paths|
          ensures paths[i] in fs
        {
          if i < |paths| - 1 {
            assert paths[i] == init[i];
          }
        }
      }
      if forall i :: 0 <= i < |paths| ==> paths[i] in fs {
        assert forall i :: 0 <= i < |init| ==> init[i] == paths[i];
      }
    }
  }

  /** The raised-on path is the first missing one, and the files before it
      were all processed. */
  lemma StopsAtFirstMissing(paths: seq<string>, fs: map<string, string>, k: nat)
    requires k < |paths| && paths[k] !in fs
    requires forall i :: 0 <= i < k ==> paths[i] in fs
    ensures Gather(paths, fs) == Gathered(Gather(paths[..k], fs).text, Some(paths[k]))
  {
    var pre := paths[..k + 1];
    assert pre[..k] == paths[..k];
    GatherMissingIff(paths[..k], fs);
    GatherSticky(pre, paths[k + 1..], fs);
    assert pre + paths[k + 1..] == paths;
  }

  lemma {:induction false} QualifyingSnoc(paths: seq<string>, p: string, fs: map<string, string>)
    requires forall i :: 0 <= i < |paths| ==> paths[i] in fs
    requires p in fs
    ensures forall i :: 0 <= i < |paths + [p]| ==> (paths + [p])[i] in fs
    ensures Qualifying(paths + [p], fs)
         == Qualifying(paths, fs) + (if Serviceable(fs[p]) then [fs[p]] else [])
    decreases |paths|
  {
    if paths != [] {
      assert (paths + [p])[1..] == paths[1..] + [p];
      QualifyingSnoc(paths[1..], p, fs);
    } else {
      assert [p][1..] == [];
    }
  }

  /** When every listed file exists, the master gains exactly the contents of
      the serviceable files, in listing order. */
  lemma {:induction false} GatherMatchesReference(paths: seq<string>, fs: map<string, string>)
    requires forall i :: 0 <= i < |paths| ==> paths[i] in fs
    ensures Gather(paths, fs) == Gathered(Concat(Qualifying(paths, fs)), None)
    decreases |paths|
  {
    if paths != [] {
      var init, p := paths[..|paths| - 1], paths[|paths| - 1];
      assert forall i :: 0 <= i < |init| ==> init[i] == paths[i];
      GatherMatchesReference(init, fs);
      assert init + [p] == paths;
      QualifyingSnoc(init, p, fs);
      if Serviceable(fs[p]) {
        ConcatSnoc(Qualifying(init, fs), fs[p]);
      } else {
        assert Qualifying(init, fs) + [] == Qualifying(init, fs);
      }
    }
  }

  /** 73 bytes is not enough, 74 is. */
  lemma ThresholdBoundary(small: string, large: string)
    requires |small| == 73 && |large| == 74
    ensures Gather([ "small" ], map["small" := small]).text == []
    ensures Gather([ "large" ], map["large" := large]).text == large
  {
    assert [ "small" ][..0] == [];
    assert [ "large" ][..0] == [];
  }

  /** One listed file of 80 bytes and one of 50: only the first reaches the
      master. */
  lemma ExampleTwoFiles(f1: string, f2: string, c1: string, c2: string)
    requires f1 != f2 && |c1| == 80 && |c2| == 50
    ensures Gather([f1, f2], map[f1 := c1, f2 := c2]) == Gathered(c1, None)
  {
    var fs := map[f1 := c1, f2 := c2];
    assert [f1][..0] == [];
    assert Gather([f1], fs) == Gathered(c1, None) by {
      assert [] + c1 == c1;
    }
    assert [f1, f2][..1] == [f1];
    assert c1 + [] == c1;
  }
}
