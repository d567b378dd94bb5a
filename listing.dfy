/** `CEUDataScraper::FolderReader`: list the files of the three download
    directories. The output of `find <dir> -type f` is an input; each line of
    it, chomped, becomes one entry, in order. */
module Listing {
  import opened Strings

  /** `output.each_line { |csv| files << csv.chomp }` from an empty array. */
  method EachLineChomped(output: string) returns (files: seq<string>)
    ensures files == ChompAll(Lines(output))
  {
    var pieces := Lines(output);
    files := [];
    for i := 0 to |pieces|
      invariant files == ChompAll(pieces[..i])
    {
      files := files + [Chomp(pieces[i])];
    }
    assert pieces[..|pieces|] == pieces;
  }

  class FolderReader {
    const reqDestination: string
    const bidDestination: string
    const wonDestination: string

    /** `@requested_files`, `@bid_files`, `@won_files`. */
    var requestedFiles: seq<string>
    var bidFiles: seq<string>
    var wonFiles: seq<string>

    constructor(reqDestination: string, bidDestination: string, wonDestination: string)
      ensures this.reqDestination == reqDestination
      ensures this.bidDestination == bidDestination
      ensures this.wonDestination == wonDestination
      ensures requestedFiles == [] && bidFiles == [] && wonFiles == []
    {
      this.reqDestination := reqDestination;
      this.bidDestination := bidDestination;
      this.wonDestination := wonDestination;
      requestedFiles, bidFiles, wonFiles := [], [], [];
    }

    /** `list_requested`, which goes on with `list_bid` and `list_won`.
        `find` gives the output of `find <dir> -type f` for each directory. */
    method ListRequested(find: string -> string)
      modifies this
      ensures requestedFiles == ChompAll(Lines(find(reqDestination)))
      ensures bidFiles == ChompAll(Lines(find(bidDestination)))
      ensures wonFiles == ChompAll(Lines(find(wonDestination)))
    {
      requestedFiles := EachLineChomped(find(reqDestination));
      ListBid(find);
    }

    /** `list_bid`, which goes on with `list_won`. */
    method ListBid(find: string -> string)
      modifies this
      ensures requestedFiles == old(requestedFiles)
      ensures bidFiles == ChompAll(Lines(find(bidDestination)))
      ensures wonFiles == ChompAll(Lines(find(wonDestination)))
    {
      bidFiles := EachLineChomped(find(bidDestination));
      ListWon(find);
    }

    /** `list_won`. */
    method ListWon(find: string -> string)
      modifies this
      ensures requestedFiles == old(requestedFiles) && bidFiles == old(bidFiles)
      ensures wonFiles == ChompAll(Lines(find(wonDestination)))
    {
      wonFiles := EachLineChomped(find(wonDestination));
    }
  }

  // ---------------------------------------------------------------------
  // Properties

  /** The entries joined back, each followed by "\n". */
  function Unlines(entries: seq<string>): string
    decreases |entries|
  {
    if entries == [] then [] else entries[0] + "\n" + Unlines(entries[1..])
  }

  /** Every character of a piece of `each_line` comes from the text. */
  lemma {:induction false} LinesChars(s: string, i: nat, c: char)
    requires i < |Lines(s)| && c in Lines(s)[i]
    ensures c in s
    decreases |s|
  {
    var k := LineEnd(s, 0);
    if i == 0 {
      assert Lines(s)[0] == s[..k];
    } else {
      assert Lines(s)[i] == Lines(s[k..])[i - 1];
      LinesChars(s[k..], i - 1, c);
    }
  }

  /** A piece ending in "\n" and holding no "\r" is its chomped form plus "\n". */
  lemma ChompLine(l: string)
    requires Terminated(l) && '\r' !in l
    ensures Chomp(l) + "\n" == l
  {
    assert l[|l| - 1] == '\n';
    if |l| >= 2 {
      assert l[|l| - 2] != '\r';
    }
  }

  /** Joining the chomped pieces with newlines gives back their concatenation
      when every piece ends in "\n" and none holds "\r". */
  lemma {:induction false} UnlinesChomped(ls: seq<string>)
    requires forall i :: 0 <= i < |ls| ==> Terminated(ls[i]) && '\r' !in ls[i]
    ensures Unlines(ChompAll(ls)) == Concat(ls)
    decreases |ls|
  {
    if ls != [] {
      assert ChompAll(ls)[1..] == ChompAll(ls[1..]);
      UnlinesChomped(ls[1..]);
      ChompLine(ls[0]);
    }
  }

  /** The listing loses nothing: for `find` output made of complete lines
      without "\r", the entries joined with newlines are that output. */
  lemma ListingRoundTrip(output: string)
    requires output == [] || Terminated(output)
    requires '\r' !in output
    ensures Unlines(ChompAll(Lines(output))) == output
  {
    var ls := Lines(output);
    LinesShape(output);
    forall i | 0 <= i < |ls|
      ensures Terminated(ls[i]) && '\r' !in ls[i]
    {
      if '\r' in ls[i] {
        LinesChars(output, i, '\r');
      }
    }
    UnlinesChomped(ls);
    LinesConcat(output);
  }

  /** Every entry is a file name on its own: no entry keeps a "\n". */
  lemma EntriesHaveNoNewline(output: string)
    ensures forall i :: 0 <= i < |ChompAll(Lines(output))| ==> '\n' !in ChompAll(Lines(output))[i]
  {
    var ls := Lines(output);
    LinesShape(output);
    forall i | 0 <= i < |ls|
      ensures '\n' !in Chomp(ls[i])
    {
      var l := ls[i];
      assert IsLine(l);
      assert forall j :: 0 <= j < |Chomp(l)| ==> Chomp(l)[j] == l[j];
      if l[|l| - 1] == '\n' {
        assert |Chomp(l)| < |l|;
      } else {
        assert Chomp(l) == l || |Chomp(l)| < |l|;
      }
    }
  }

  /** A single line is yielded whole. */
  lemma OneLine(l: string)
    requires IsLine(l)
    ensures Lines(l) == [l]
  {
    LineEndOfLine(l, 0);
    assert l[..|l|] == l && l[|l|..] == [];
  }

  /** `chomp` undoes appending "\n" to a text not ending in "\r". */
  lemma ChompNewline(path: string)
    requires path == [] || path[|path| - 1] != '\r'
    ensures Chomp(path + "\n") == path
  {
    var l := path + "\n";
    assert l[..|l| - 1] == path;
  }

  /** A directory holding one file: the listing is exactly its path. */
  lemma SingleFileListing(path: string)
    requires '\n' !in path
    requires path == [] || path[|path| - 1] != '\r'
    ensures ChompAll(Lines(path + "\n")) == [path]
  {
    var l := path + "\n";
    forall j | 0 <= j < |l| - 1
      ensures l[j] != '\n'
    {
      assert l[j] == path[j];
    }
    OneLine(l);
    ChompNewline(path);
  }
}
