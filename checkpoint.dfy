/** Generator checkpoints: the file name that encodes (increment, epoch), its
    parser, `save_checkpoint` and `load_checkpoint` with its scan for the
    latest epoch of an increment. */
module Checkpoint {
  import opened Python
  import opened Gan

  /** What a checkpoint file name encodes. */
  datatype Ckpt = Ckpt(increment: int, epoch: int)

  /** The file name `save_checkpoint` writes, `G_inc_<increment>_e_<epoch>.pth`. */
  function FormatName(increment: int, epoch: int): (name: string)
    ensures |name| >= 12 && name[..6] == "G_inc_" && name[|name| - 4..] == ".pth"
  {
    "G_inc_" + IntToString(increment) + "_e_" + IntToString(epoch) + ".pth"
  }

  /** How `load_checkpoint` reads a listed name: split on `_`, token 2 is the
      increment, token 4 up to its first `.` is the epoch. A missing token
      raises IndexError and a token that is not an integer ValueError, in
      that order of evaluation. Tokens 0, 1 and 3 and anything after the
      first `.` are never looked at. */
  function ParseName(f: string): (r: Result<Ckpt>)
    ensures r.Failure? ==> r.error == IndexError || r.error == ValueError
  {
    var vals := Split(f, '_');
    if |vals| <= 2 then Failure(IndexError)
    else
      match ParseInt(vals[2])
      case None => Failure(ValueError)
      case Some(incr) =>
        if |vals| <= 4 then Failure(IndexError)
        else
          match ParseInt(Split(vals[4], '.')[0])
          case None => Failure(ValueError)
          case Some(epoch) => Success(Ckpt(incr, epoch))
  }

  /** Every name `save_checkpoint` writes is read back as the pair it encodes. */
  lemma ParseFormatRoundTrip(increment: int, epoch: int)
    ensures ParseName(FormatName(increment, epoch)) == Success(Ckpt(increment, epoch))
  {
    var a, b := IntToString(increment), IntToString(epoch);
    FormatNameTokens(increment, epoch);
    IntToStringCharacters(epoch);
    EpochTokenPrefix(b);
    IntStringRoundTrip(increment);
    IntStringRoundTrip(epoch);
  }

  /** The `_`-separated tokens of a formatted name. */
  lemma FormatNameTokens(increment: int, epoch: int)
    ensures Split(FormatName(increment, epoch), '_')
      == ["G", "inc", IntToString(increment), "e", IntToString(epoch) + ".pth"]
  {
    var pieces := ["G", "inc", IntToString(increment), "e", IntToString(epoch) + ".pth"];
    FormatNameJoin(IntToString(increment), IntToString(epoch));
    TokensLackUnderscore(increment, epoch);
    SplitJoin(pieces, '_');
  }

  /** A formatted name is its five tokens joined with `_`. */
  lemma FormatNameJoin(a: string, b: string)
    ensures Join(["G", "inc", a, "e", b + ".pth"], '_') == "G_inc_" + a + "_e_" + b + ".pth"
  {
    var pieces := ["G", "inc", a, "e", b + ".pth"];
    assert Join(pieces[3..], '_') == "e_" + b + ".pth" by {
      assert pieces[3..][1..] == [b + ".pth"];
    }
    assert Join(pieces[2..], '_') == a + "_e_" + b + ".pth" by {
      assert pieces[2..][1..] == pieces[3..];
    }
    assert Join(pieces[1..], '_') == "inc_" + a + "_e_" + b + ".pth" by {
      assert pieces[1..][1..] == pieces[2..];
    }
  }

  /** No token of a formatted name holds a `_`. */
  lemma TokensLackUnderscore(increment: int, epoch: int)
    ensures forall i :: 0 <= i < 5 ==>
      '_' !in ["G", "inc", IntToString(increment), "e", IntToString(epoch) + ".pth"][i]
  {
    IntToStringCharacters(increment);
    IntToStringCharacters(epoch);
    assert '_' !in IntToString(epoch) + ".pth";
  }

  /** The part of `b + ".pth"` before its first `.` is `b` when `b` has no `.`. */
  lemma EpochTokenPrefix(b: string)
    requires '.' !in b
    ensures Split(b + ".pth", '.')[0] == b
  {
    assert b + ".pth" == b + ['.'] + "pth";
    SplitAfterPiece(b, '.', "pth");
  }

  /** A name whose increment is preceded by an information separator
      (U+001C to U+001F), such as `G_inc_\x1c1_e_3.pth`, raises ValueError:
      `int()` does not strip those characters. */
  lemma SeparatorInTokenRaises(c: char, increment: int, epoch: int)
    requires '\U{001C}' <= c <= '\U{001F}'
    ensures ParseName("G_inc_" + [c] + IntToString(increment) + "_e_" + IntToString(epoch) + ".pth")
      == Failure(ValueError)
  {
    var a, b := [c] + IntToString(increment), IntToString(epoch);
    var pieces := ["G", "inc", a, "e", b + ".pth"];
    FormatNameJoin(a, b);
    assert "G_inc_" + [c] + IntToString(increment) == "G_inc_" + a;
    IntToStringCharacters(increment);
    IntToStringCharacters(epoch);
    assert forall i :: 0 <= i < 5 ==> '_' !in pieces[i] by {
      assert '_' !in a && '_' !in b + ".pth";
    }
    SplitJoin(pieces, '_');
    assert !IsSpace(a[0]) && !IsSpace(a[|a| - 1]);
    assert StripRight(StripLeft(a)) == a;
    assert !IsDigit(a[0]);
  }

  /** A name with fewer than five `_`-separated tokens is an error, not a
      name to skip. */
  lemma ShortNameRaises(f: string)
    requires |Split(f, '_')| < 5
    ensures ParseName(f).Failure?
  {
  }

  // ---------------------------------------------------------------------------
  // Selecting the checkpoint to load
  // ---------------------------------------------------------------------------

  /** A listing parsed in order with `parse`, or the exception of the first
      name `parse` rejects. */
  function ParseEach(parse: string -> Result<Ckpt>, names: seq<string>): (r: Result<seq<Ckpt>>)
    ensures r.Success? ==> |r.value| == |names|
    decreases |names|
  {
    if |names| == 0 then Success([])
    else
      match ParseEach(parse, names[..|names| - 1])
      case Failure(e) => Failure(e)
      case Success(cs) =>
        match parse(names[|names| - 1])
        case Failure(e) => Failure(e)
        case Success(c) => Success(cs + [c])
  }

  /** The names of a listing parsed in order, or the exception of the first
      one that does not parse. */
  function ParseAll(names: seq<string>): (r: Result<seq<Ckpt>>)
    ensures r.Success? ==> |r.value| == |names|
  {
    ParseEach(ParseName, names)
  }

  /** `names[i]` is the first name of the listing that `parse` rejects. */
  predicate FirstMalformed(parse: string -> Result<Ckpt>, names: seq<string>, i: int)
  {
    && 0 <= i < |names|
    && parse(names[i]).Failure?
    && (forall j :: 0 <= j < i ==> parse(names[j]).Success?)
  }

  /** Parsing a listing succeeds exactly when every name parses, and then name
      by name; otherwise it fails with the exception of the first rejected
      name. */
  lemma ParseEachByName(parse: string -> Result<Ckpt>, names: seq<string>)
    ensures ParseEach(parse, names).Success? <==> forall i :: 0 <= i < |names| ==> parse(names[i]).Success?
    ensures ParseEach(parse, names).Success? ==>
      forall i :: 0 <= i < |names| ==> parse(names[i]) == Success(ParseEach(parse, names).value[i])
    ensures ParseEach(parse, names).Failure? ==>
      exists i :: FirstMalformed(parse, names, i) && ParseEach(parse, names).error == parse(names[i]).error
  {
    ParseEachParsed(parse, names);
    ParseEachFirstFailure(parse, names);
  }

  /** A parsed listing holds each name's own checkpoint. */
  lemma {:induction false} ParseEachParsed(parse: string -> Result<Ckpt>, names: seq<string>)
    ensures ParseEach(parse, names).Success? ==>
      forall i :: 0 <= i < |names| ==> parse(names[i]) == Success(ParseEach(parse, names).value[i])
    decreases |names|
  {
    if |names| > 0 && ParseEach(parse, names).Success? {
      var n := |names| - 1;
      var p := names[..n];
      ParseEachParsed(parse, p);
      var cs := ParseEach(parse, p).value;
      var c := parse(names[n]).value;
      assert ParseEach(parse, names).value == cs + [c];
      forall i | 0 <= i < |names|
        ensures parse(names[i]) == Success((cs + [c])[i])
      {
        if i < n {
          assert names[i] == p[i];
        }
      }
    }
  }

  /** A listing that fails to parse fails at its first rejected name. */
  lemma {:induction false} ParseEachFirstFailure(parse: string -> Result<Ckpt>, names: seq<string>)
    ensures ParseEach(parse, names).Failure? ==>
      exists i :: FirstMalformed(parse, names, i) && ParseEach(parse, names).error == parse(names[i]).error
    decreases |names|
  {
    if |names| > 0 && ParseEach(parse, names).Failure? {
      var n := |names| - 1;
      var p := names[..n];
      ParseEachFirstFailure(parse, p);
      ParseEachParsed(parse, p);
      assert forall i :: 0 <= i < n ==> p[i] == names[i];
      if ParseEach(parse, p).Failure? {
        var i :| FirstMalformed(parse, p, i) && ParseEach(parse, p).error == parse(p[i]).error;
        assert FirstMalformed(parse, names, i);
      } else {
        assert FirstMalformed(parse, names, n);
      }
    }
  }

  /** The listing parses exactly when every name does, and then name by name;
      otherwise it fails with the exception of the first malformed name. */
  lemma ParseAllByName(names: seq<string>)
    ensures ParseAll(names).Success? <==> forall i :: 0 <= i < |names| ==> ParseName(names[i]).Success?
    ensures ParseAll(names).Success? ==>
      forall i :: 0 <= i < |names| ==> ParseName(names[i]) == Success(ParseAll(names).value[i])
    ensures ParseAll(names).Failure? ==>
      exists i :: FirstMalformed(ParseName, names, i) && ParseAll(names).error == ParseName(names[i]).error
  {
    ParseEachByName(ParseName, names);
  }

  /** A checkpoint `load_checkpoint` may pick for `increment`: that increment
      and an epoch above the initial maximum of -1. */
  predicate Selectable(c: Ckpt, increment: int)
  {
    c.increment == increment && c.epoch >= 0
  }

  /** `cs[k]` is the checkpoint `load_checkpoint` loads: selectable, of
      maximal epoch, and the first listed with that epoch (the comparison is
      strict). */
  predicate IsLatest(cs: seq<Ckpt>, increment: int, k: int)
  {
    && 0 <= k < |cs|
    && Selectable(cs[k], increment)
    && (forall j :: 0 <= j < |cs| && Selectable(cs[j], increment) ==> cs[j].epoch <= cs[k].epoch)
    && (forall j :: 0 <= j < k && Selectable(cs[j], increment) ==> cs[j].epoch < cs[k].epoch)
  }

  /** At most one listed checkpoint is the latest. */
  lemma LatestIsUnique(cs: seq<Ckpt>, increment: int, k1: int, k2: int)
    requires IsLatest(cs, increment, k1) && IsLatest(cs, increment, k2)
    ensures k1 == k2
  {
  }

  /** Appending a name that parses to `c` appends `c` to the parsed listing. */
  lemma ParseAllAppend(names: seq<string>, f: string, c: Ckpt)
    requires ParseAll(names).Success? && ParseName(f) == Success(c)
    ensures ParseAll(names + [f]) == Success(ParseAll(names).value + [c])
  {
    assert (names + [f])[..|names|] == names;
  }

  /** Where the scan stands after the checkpoints `cs`: `maxE` is the largest
      epoch of a checkpoint of `increment` seen, or -1, and `best` the index
      of the first checkpoint reaching it (strictly above -1). */
  predicate Scanned(cs: seq<Ckpt>, increment: int, maxE: int, best: Option<nat>)
  {
    && maxE >= -1
    && (best.None? <==> maxE == -1)
    && (best.Some? ==> best.value < |cs| && cs[best.value] == Ckpt(increment, maxE))
    && (forall j :: 0 <= j < |cs| && cs[j].increment == increment ==> cs[j].epoch <= maxE)
    && (best.Some? ==> forall j :: 0 <= j < best.value && cs[j].increment == increment ==> cs[j].epoch < maxE)
  }

  /** One more checkpoint: it becomes the best exactly when it is of
      `increment` and strictly newer. */
  lemma ScanStep(cs: seq<Ckpt>, c: Ckpt, increment: int, maxE: int, best: Option<nat>)
    requires Scanned(cs, increment, maxE, best)
    ensures c.increment == increment && c.epoch > maxE ==> Scanned(cs + [c], increment, c.epoch, Some(|cs|))
    ensures !(c.increment == increment && c.epoch > maxE) ==> Scanned(cs + [c], increment, maxE, best)
  {
    var all := cs + [c];
    assert forall j :: 0 <= j < |cs| ==> all[j] == cs[j];
  }

  /** What the finished scan means: the best index is the latest checkpoint,
      and there is none exactly when no checkpoint is selectable. */
  lemma ScanOutcome(cs: seq<Ckpt>, increment: int, maxE: int, best: Option<nat>)
    requires Scanned(cs, increment, maxE, best)
    ensures best.Some? ==> IsLatest(cs, increment, best.value)
    ensures best.None? <==> forall j :: 0 <= j < |cs| ==> !Selectable(cs[j], increment)
  {
    if best.None? {
      forall j | 0 <= j < |cs| ensures !Selectable(cs[j], increment) {
        if cs[j].increment == increment {
          assert cs[j].epoch <= -1;
        }
      }
    }
  }

  /** The scan of `load_checkpoint`: walk the listing keeping the largest
      epoch seen for `increment` (starting from -1) and the index of the name
      that set it. A name that does not parse stops the scan with its
      exception. Yields the index to load, or None when the maximum stayed -1. */
  method LatestCheckpoint(names: seq<string>, increment: int) returns (r: Result<Option<nat>>)
    ensures r.Failure? <==> ParseAll(names).Failure?
    ensures r.Failure? ==> r.error == ParseAll(names).error
    ensures r.Success? && r.value.Some? ==> IsLatest(ParseAll(names).value, increment, r.value.value)
    ensures r.Success? ==>
      (r.value.None? <==> forall j :: 0 <= j < |names| ==> !Selectable(ParseAll(names).value[j], increment))
  {
    var maxE := -1;
    var filename: Option<nat> := None;
    ghost var cs: seq<Ckpt> := [];
    var i := 0;
    while i < |names|
      invariant 0 <= i <= |names|
      invariant ParseAll(names[..i]) == Success(cs)
      invariant |cs| == i
      invariant Scanned(cs, increment, maxE, filename)
    {
      ParsePrefixStep(names, i);
      match ParseName(names[i])
      case Failure(e) =>
        FailureExtends(names, i + 1);
        return Failure(e);
      case Success(c) =>
        ScanStep(cs, c, increment, maxE, filename);
        if c.increment == increment && c.epoch > maxE {
          maxE := c.epoch;
          filename := Some(i);
        }
        cs := cs + [c];
      i := i + 1;
    }
    assert names[..i] == names;
    ScanOutcome(cs, increment, maxE, filename);
    if maxE == -1 {
      return Success(None);
    }
    return Success(filename);
  }

  /** Parsing one more name of the listing extends the parsed prefix, or
      fails with that name's exception. */
  lemma ParsePrefixStep(names: seq<string>, i: nat)
    requires i < |names| && ParseAll(names[..i]).Success?
    ensures ParseAll(names[..i + 1])
      == match ParseName(names[i])
         case Failure(e) => Failure(e)
         case Success(c) => Success(ParseAll(names[..i]).value + [c])
  {
    assert names[..i + 1][..i] == names[..i];
  }

  /** Once a prefix of the listing fails to parse, the whole listing fails
      with the same exception. */
  lemma {:induction false} FailureExtends(names: seq<string>, n: nat)
    requires n <= |names| && ParseAll(names[..n]).Failure?
    ensures ParseAll(names) == ParseAll(names[..n])
    decreases |names| - n
  {
    if n < |names| {
      assert names[..n + 1][..n] == names[..n];
      FailureExtends(names, n + 1);
    } else {
      assert names[..n] == names;
    }
  }

  /** `load_checkpoint(g_ckpt_path, increment, G)` over the listing of
      `ckptDir`: True after loading the latest checkpoint of `increment`,
      False when there is none (G untouched), or the exception of the first
      malformed name (G untouched). */
  method LoadCheckpoint(ckptDir: string, listing: seq<string>, increment: int, g: Generator)
    returns (r: Result<bool>)
    modifies g
    ensures r.Failure? <==> ParseAll(listing).Failure?
    ensures r.Failure? ==> r.error == ParseAll(listing).error
    ensures r.Success? ==>
      (r.value <==> exists j :: 0 <= j < |listing| && Selectable(ParseAll(listing).value[j], increment))
    ensures r == Success(true) ==>
      exists k :: IsLatest(ParseAll(listing).value, increment, k) && g.weights == FromFile(PathJoin(ckptDir, listing[k]))
    ensures r != Success(true) ==> g.weights == old(g.weights)
    ensures g.training == old(g.training)
  {
    var latest := LatestCheckpoint(listing, increment);
    match latest
    case Failure(e) =>
      return Failure(e);
    case Success(None) =>
      return Success(false);
    case Success(Some(k)) =>
      var path := PathJoin(ckptDir, listing[k]);
      g.LoadStateDict(path);
      return Success(true);
  }

  // ---------------------------------------------------------------------------
  // Saving
  // ---------------------------------------------------------------------------

  /** The files under the experiment directory, by path. */
  class Disk {
    var files: map<string, Weights>

    constructor ()
      ensures files == map[]
    {
      files := map[];
    }
  }

  /** `save_checkpoint(epoch, increment, experiment, G)`: nothing at epoch 0;
      otherwise G's parameters are written to
      `<experiment path>checkpoints/G_inc_<increment>_e_<epoch>.pth`,
      replacing any file of that name, and no other file changes. */
  method SaveCheckpoint(epoch: int, increment: int, experimentPath: string, g: Generator, disk: Disk)
    modifies disk
    ensures epoch == 0 ==> disk.files == old(disk.files)
    ensures epoch != 0 ==>
      disk.files == old(disk.files)[experimentPath + "checkpoints/" + FormatName(increment, epoch) := g.weights]
  {
    if epoch == 0 {
      return;
    }
    var path := experimentPath + "checkpoints/";
    disk.files := disk.files[path + FormatName(increment, epoch) := g.weights];
  }

  /** A checkpoint saved at a positive epoch beyond every listed epoch of its
      increment is the one the next load of that increment picks, wherever
      the directory listing places its name. */
  lemma SavedCheckpointIsLatest(listing: seq<string>, p: nat, increment: int, epoch: int)
    requires ParseAll(listing).Success? && p <= |listing|
    requires epoch > 0
    requires forall j :: 0 <= j < |listing| && Selectable(ParseAll(listing).value[j], increment) ==>
      ParseAll(listing).value[j].epoch < epoch
    ensures var cs := ParseAll(listing).value;
      ParseAll(listing[..p] + [FormatName(increment, epoch)] + listing[p..])
      == Success(cs[..p] + [Ckpt(increment, epoch)] + cs[p..])
    ensures IsLatest(ParseAll(listing[..p] + [FormatName(increment, epoch)] + listing[p..]).value, increment, p)
  {
    var cs := ParseAll(listing).value;
    var f, c := FormatName(increment, epoch), Ckpt(increment, epoch);
    ParseFormatRoundTrip(increment, epoch);
    ParseAllByName(listing);
    forall i | 0 <= i < |listing| + 1
      ensures ParseName((listing[..p] + [f] + listing[p..])[i]) == Success((cs[..p] + [c] + cs[p..])[i])
    {
      InsertAt(listing, p, f, i);
      InsertAt(cs, p, c, i);
    }
    ParseAllOfParsed(listing[..p] + [f] + listing[p..], cs[..p] + [c] + cs[p..]);
    NewerInsertedIsLatest(cs, p, increment, epoch);
  }

  /** The elements of a sequence with `x` inserted at `p`. */
  lemma InsertAt<T>(s: seq<T>, p: nat, x: T, i: nat)
    requires p <= |s| && i <= |s|
    ensures |s[..p] + [x] + s[p..]| == |s| + 1
    ensures (s[..p] + [x] + s[p..])[i] == if i < p then s[i] else if i == p then x else s[i - 1]
  {
    if i > p {
      assert (s[..p] + [x] + s[p..])[i] == s[p..][i - p - 1];
    }
  }

  /** A listing whose every name parses parses to those checkpoints. */
  lemma ParseAllOfParsed(names: seq<string>, cs: seq<Ckpt>)
    requires |names| == |cs|
    requires forall i :: 0 <= i < |names| ==> ParseName(names[i]) == Success(cs[i])
    ensures ParseAll(names) == Success(cs)
  {
    ParseEachOfParsed(ParseName, names, cs);
  }

  /** The same for any name parser. */
  lemma {:induction false} ParseEachOfParsed(parse: string -> Result<Ckpt>, names: seq<string>, cs: seq<Ckpt>)
    requires |names| == |cs|
    requires forall i :: 0 <= i < |names| ==> parse(names[i]) == Success(cs[i])
    ensures ParseEach(parse, names) == Success(cs)
    decreases |names|
  {
    if |names| > 0 {
      var n := |names| - 1;
      ParseEachOfParsed(parse, names[..n], cs[..n]);
      assert cs[..n] + [cs[n]] == cs;
    }
  }

  /** A selectable checkpoint newer than every other selectable one is the
      latest, wherever it is inserted. */
  lemma NewerInsertedIsLatest(cs: seq<Ckpt>, p: nat, increment: int, epoch: int)
    requires epoch >= 0 && p <= |cs|
    requires forall j :: 0 <= j < |cs| && Selectable(cs[j], increment) ==> cs[j].epoch < epoch
    ensures IsLatest(cs[..p] + [Ckpt(increment, epoch)] + cs[p..], increment, p)
  {
    var all := cs[..p] + [Ckpt(increment, epoch)] + cs[p..];
    assert forall j :: 0 <= j < p ==> all[j] == cs[j];
    assert forall j :: p < j < |all| ==> all[j] == cs[j - 1];
  }

  /** A listing of three names parses name by name. */
  lemma ParseThree(a: string, b: string, c: string, ca: Ckpt, cb: Ckpt, cc: Ckpt)
    requires ParseName(a) == Success(ca) && ParseName(b) == Success(cb) && ParseName(c) == Success(cc)
    ensures ParseAll([a, b, c]) == Success([ca, cb, cc])
  {
    var empty: seq<string> := [];
    var none: seq<Ckpt> := [];
    assert ParseAll(empty) == Success(none);
    ParseAllAppend(empty, a, ca);
    assert empty + [a] == [a] && none + [ca] == [ca];
    ParseAllAppend([a], b, cb);
    assert [a] + [b] == [a, b] && [ca] + [cb] == [ca, cb];
    ParseAllAppend([a, b], c, cc);
    assert [a, b] + [c] == [a, b, c] && [ca, cb] + [cc] == [ca, cb, cc];
  }

  /** A listing of two checkpoints of one increment and one of another, such
      as `G_inc_1_e_3.pth`, `G_inc_1_e_7.pth`, `G_inc_2_e_9.pth`: the first
      increment loads its later epoch, and an increment not listed finds
      nothing. */
  lemma TwoIncrementsListing(inc: int, other: int, absent: int, e1: int, e2: int, e3: int)
    requires 0 <= e1 < e2 && other != inc && absent != inc && absent != other
    ensures ParseAll([FormatName(inc, e1), FormatName(inc, e2), FormatName(other, e3)])
      == Success([Ckpt(inc, e1), Ckpt(inc, e2), Ckpt(other, e3)])
    ensures IsLatest([Ckpt(inc, e1), Ckpt(inc, e2), Ckpt(other, e3)], inc, 1)
    ensures forall j :: 0 <= j < 3 ==> !Selectable([Ckpt(inc, e1), Ckpt(inc, e2), Ckpt(other, e3)][j], absent)
  {
    ParseFormatRoundTrip(inc, e1);
    ParseFormatRoundTrip(inc, e2);
    ParseFormatRoundTrip(other, e3);
    ParseThree(FormatName(inc, e1), FormatName(inc, e2), FormatName(other, e3),
      Ckpt(inc, e1), Ckpt(inc, e2), Ckpt(other, e3));
  }
}
