/** The byte window of `ipfs cat`: given the files named on the command line,
    a start offset and an optional maximum length, choose the readers to
    concatenate and the total length to announce. */
module Cat {
  import opened Wrappers

  /** What resolving one path yields. `Unresolved` is any error met on the way
      (the path does not parse, the object cannot be fetched, its size cannot
      be read); it is returned to the caller unchanged. */
  datatype Lookup = Unresolved(cause: string) | Directory | RegularFile(size: nat)

  datatype CatError =
    | Propagated(cause: string)   // an error from resolving a path
    | IsDir                       // the path names a directory
    | NegativeSeek                // seeking before the start of a file
    | MultipleFiles               // more than one path argument
    | MissingToken                // the token option is absent
    | MissingPath                 // no path argument at all
    | Rejected(cause: string)     // the access checks that precede the window
    | NegativeOffset
    | NegativeLength
    | BodyArgsFailed(cause: string) // reading arguments from the request body failed

  /** A reader over the file at index `file`, seeked to `seek`; when `limit`
      is present it is wrapped so that it yields at most `limit` bytes. */
  datatype Reader = Reader(file: nat, seek: nat, limit: Option<nat>)

  /** The readers handed to the output and the length announced for them. */
  datatype Slice = Slice(readers: seq<Reader>, length: nat)

  /** The entries the paths resolve to, in order. */
  function Entries(paths: seq<string>, lookup: string -> Lookup): (es: seq<Lookup>)
    ensures |es| == |paths|
    ensures forall i :: 0 <= i < |paths| ==> es[i] == lookup(paths[i])
  {
    seq(|paths|, i requires 0 <= i < |paths| => lookup(paths[i]))
  }

  /** Puts `rs` (worth `n` bytes) in front of a successful window. */
  function PrependAll(rs: seq<Reader>, n: nat, rest: Result<Slice, CatError>): Result<Slice, CatError>
  {
    match rest
    case Success(s) => Success(Slice(rs + s.readers, n + s.length))
    case Failure(e) => Failure(e)
  }

  /** The bytes still allowed after `length` bytes: a non-positive `max`
      means no limit and stays as it is. */
  function Budget(max: int, length: nat): int
  {
    if max > 0 then max - length else max
  }

  /** What the loop of `cat` produces from entry `i` on, with `off` bytes
      still to skip and `budget` bytes still allowed (`budget <= 0`: no
      limit). A file strictly shorter than the remaining offset is skipped;
      the first file kept is seeked to the remaining offset and every later
      one is read from its start; the reader that reaches the budget is cut
      to it and ends the iteration. */
  function Window(es: seq<Lookup>, i: nat, off: int, budget: int): Result<Slice, CatError>
    requires i <= |es|
    decreases |es| - i
  {
    if i == |es| then Success(Slice([], 0))
    else
      match es[i]
      case Unresolved(cause) => Failure(Propagated(cause))
      case Directory => Failure(IsDir)
      case RegularFile(size) =>
        if off > size then Window(es, i + 1, off - size, budget)
        else if off < 0 then Failure(NegativeSeek)
        else
          var n := size - off;
          if budget > 0 && n >= budget then
            Success(Slice([Reader(i, off, if n - budget != 0 then Some(budget) else None)], budget))
          else
            PrependAll([Reader(i, off, None)], n, Window(es, i + 1, 0, Budget(budget, n)))
  }

  /** Putting one more reader in front of a window and then the earlier
      ones is putting all of them in front at once. */
  lemma PrependStep(rs: seq<Reader>, n: nat, r: Reader, m: nat, rest: Result<Slice, CatError>)
    ensures PrependAll(rs, n, PrependAll([r], m, rest)) == PrependAll(rs + [r], n + m, rest)
  {
    if rest.Success? {
      assert rs + ([r] + rest.value.readers) == rs + [r] + rest.value.readers;
    }
  }

  /** The whole of `cat` on resolved entries: a zero maximum yields nothing
      without looking at any entry. */
  function CatSpec(es: seq<Lookup>, offset: int, max: int): Result<Slice, CatError>
  {
    if max == 0 then Success(Slice([], 0)) else Window(es, 0, offset, max)
  }

  /** `cat`: the loop over the paths, updating the remaining offset, the
      accumulated length and the list of readers. Seeking returns the
      requested position. */
  method Cat(paths: seq<string>, lookup: string -> Lookup, offset: int, max: int)
    returns (r: Result<Slice, CatError>)
    ensures r == CatSpec(Entries(paths, lookup), offset, max)
    ensures max == 0 ==> r == Success(Slice([], 0))
    ensures r.Success? && max > 0 ==> r.value.length <= max
  {
    ghost var es := Entries(paths, lookup);
    if max == 0 {
      return Success(Slice([], 0));
    }
    var readers: seq<Reader> := [];
    var length: nat := 0;
    var off := offset;
    var i := 0;
    assert Window(es, 0, off, max).Success? ==>
      [] + Window(es, 0, off, max).value.readers == Window(es, 0, off, max).value.readers;
    while i < |paths|
      invariant 0 <= i <= |paths|
      invariant max > 0 ==> length < max
      invariant CatSpec(es, offset, max) == PrependAll(readers, length, Window(es, i, off, Budget(max, length)))
    {
      var entry := lookup(paths[i]);
      if entry.Unresolved? {
        return Failure(Propagated(entry.cause));
      } else if entry.Directory? {
        return Failure(IsDir);
      }
      var fsize := entry.size;
      assert es[i] == RegularFile(fsize);
      if off > fsize {
        off := off - fsize;
      } else {
        if off < 0 {
          return Failure(NegativeSeek);
        }
        var count := off;
        off := 0;
        var size := fsize - count;
        length := length + size;
        if max > 0 && length >= max {
          var overshoot := length - max;
          var last := Reader(i, count, None);
          if overshoot != 0 {
            last := Reader(i, count, Some(size - overshoot));
            length := max;
          }
          readers := readers + [last];
          return Success(Slice(readers, length));
        }
        PrependStep(readers, length - size, Reader(i, count, None), size, Window(es, i + 1, 0, Budget(max, length)));
        readers := readers + [Reader(i, count, None)];
      }
      i := i + 1;
    }
    assert readers + [] == readers;
    return Success(Slice(readers, length));
  }

  // ---------------------------------------------------------------------
  // What the window means, on files whose sizes are all known

  predicate AllFiles(es: seq<Lookup>)
  {
    forall i :: 0 <= i < |es| ==> es[i].RegularFile?
  }

  function SizeOf(e: Lookup): nat
  {
    if e.RegularFile? then e.size else 0
  }

  /** Total size of the first `i` entries: the position of entry `i` in the
      concatenation of all the files. */
  function Prefix(es: seq<Lookup>, i: nat): nat
    requires i <= |es|
  {
    if i == 0 then 0 else Prefix(es, i - 1) + SizeOf(es[i - 1])
  }

  lemma {:induction false} PrefixMonotone(es: seq<Lookup>, i: nat, j: nat)
    requires i <= j <= |es|
    ensures Prefix(es, i) + (if i < j then SizeOf(es[i]) else 0) <= Prefix(es, j)
    decreases j - i
  {
    if i < j {
      if i + 1 < j {
        PrefixMonotone(es, i + 1, j);
        PrefixMonotone(es, i, i + 1);
      }
    }
  }

  /** Bytes a reader yields: its limit, or the rest of its file. */
  function Delivered(es: seq<Lookup>, r: Reader): int
    requires r.file < |es|
  {
    if r.limit.Some? then r.limit.value else SizeOf(es[r.file]) - r.seek
  }

  /** The readers yield exactly the bytes at positions `lo` to `hi` of the
      concatenated files, in order: each starts where the previous one
      stopped and stays inside its own file. */
  ghost predicate Covers(es: seq<Lookup>, rs: seq<Reader>, lo: int, hi: int)
    decreases |rs|
  {
    if rs == [] then lo == hi
    else
      var r := rs[0];
      && r.file < |es|
      && Prefix(es, r.file) + r.seek == lo
      && 0 <= Delivered(es, r)
      && r.seek + Delivered(es, r) <= SizeOf(es[r.file])
      && Covers(es, rs[1..], lo + Delivered(es, r), hi)
  }

  /** Bytes available after skipping `off` from position `Prefix(es, i)`. */
  function Available(es: seq<Lookup>, i: nat, off: int): nat
    requires i <= |es|
  {
    var rest := Prefix(es, |es|) - Prefix(es, i) - off;
    if rest > 0 then rest else 0
  }

  /** `available` bytes cut to a positive budget. */
  function Cap(available: nat, budget: int): nat
  {
    if budget > 0 && available > budget then budget else available
  }

  /** On files only, with a non-negative offset, the window never fails and
      its length is what is available cut to the budget. */
  lemma {:induction false} WindowLength(es: seq<Lookup>, i: nat, off: int, budget: int)
    requires AllFiles(es) && i <= |es| && 0 <= off
    ensures Window(es, i, off, budget).Success?
    ensures Window(es, i, off, budget).value.length == Cap(Available(es, i, off), budget)
    decreases |es| - i
  {
    if i < |es| {
      var size := es[i].size;
      PrefixMonotone(es, i + 1, |es|);
      assert Prefix(es, i + 1) == Prefix(es, i) + size;
      if off > size {
        WindowLength(es, i + 1, off - size, budget);
      } else if !(budget > 0 && size - off >= budget) {
        WindowLength(es, i + 1, 0, Budget(budget, size - off));
      }
    }
  }

  /** A reader that starts at `lo` and stays inside its file, in front of
      readers covering what follows it, covers from `lo`. */
  lemma CoversCons(es: seq<Lookup>, r: Reader, rs: seq<Reader>, lo: int, hi: int)
    requires r.file < |es| && Prefix(es, r.file) + r.seek == lo
    requires 0 <= Delivered(es, r) && r.seek + Delivered(es, r) <= SizeOf(es[r.file])
    requires Covers(es, rs, lo + Delivered(es, r), hi)
    ensures Covers(es, [r] + rs, lo, hi)
  {
    assert ([r] + rs)[1..] == rs;
  }

  /** On files only, with a non-negative offset, the readers of the window
      cover exactly its length in bytes from the offset on. */
  lemma {:induction false} WindowCovers(es: seq<Lookup>, i: nat, off: int, budget: int)
    requires AllFiles(es) && i <= |es| && 0 <= off
    requires Window(es, i, off, budget).Success?
    ensures Covers(es, Window(es, i, off, budget).value.readers,
                   Prefix(es, i) + off, Prefix(es, i) + off + Window(es, i, off, budget).value.length)
    decreases |es| - i
  {
    if i < |es| {
      var size := es[i].size;
      assert Prefix(es, i + 1) == Prefix(es, i) + size;
      var n := size - off;
      var lo := Prefix(es, i) + off;
      if off > size {
        assert Window(es, i, off, budget) == Window(es, i + 1, off - size, budget);
        WindowCovers(es, i + 1, off - size, budget);
      } else if budget > 0 && n >= budget {
        var r := Reader(i, off, if n - budget != 0 then Some(budget) else None);
        assert Window(es, i, off, budget) == Success(Slice([r], budget));
        assert Delivered(es, r) == budget;
        CoversCons(es, r, [], lo, lo + budget);
        assert [r] + [] == [r];
      } else {
        var w := Window(es, i + 1, 0, Budget(budget, n));
        assert Window(es, i, off, budget) == PrependAll([Reader(i, off, None)], n, w);
        WindowCovers(es, i + 1, 0, Budget(budget, n));
        CoversCons(es, Reader(i, off, None), w.value.readers, lo, lo + n + w.value.length);
      }
    }
  }

  /** Where a failure comes from: a directory or an unresolved path among the
      entries looked at, or a negative offset. */
  lemma {:induction false} WindowFailure(es: seq<Lookup>, i: nat, off: int, budget: int)
    requires i <= |es|
    ensures Window(es, i, off, budget) == Failure(IsDir) ==>
              exists j :: i <= j < |es| && es[j] == Directory
    ensures forall c :: Window(es, i, off, budget) == Failure(Propagated(c)) ==>
              exists j :: i <= j < |es| && es[j] == Unresolved(c)
    ensures Window(es, i, off, budget) == Failure(NegativeSeek) ==> off < 0
    ensures Window(es, i, off, budget).Failure? ==>
              Window(es, i, off, budget).error in {IsDir, NegativeSeek} ||
              Window(es, i, off, budget).error.Propagated?
    ensures i < |es| && es[i] == Directory ==> Window(es, i, off, budget) == Failure(IsDir)
    ensures i < |es| && es[i].Unresolved? ==> Window(es, i, off, budget) == Failure(Propagated(es[i].cause))
    decreases |es| - i
  {
    if i < |es| && es[i].RegularFile? {
      var size := es[i].size;
      if off > size {
        WindowFailure(es, i + 1, off - size, budget);
      } else if 0 <= off {
        var n := size - off;
        if !(budget > 0 && n >= budget) {
          WindowFailure(es, i + 1, 0, Budget(budget, n));
        }
      }
    }
  }

  /** Without a limit and from a non-negative offset every entry is looked
      at: the first one that is not a file decides the failure. */
  lemma {:induction false} FirstBadEntryFails(es: seq<Lookup>, i: nat, j: nat, off: int, budget: int)
    requires i <= j < |es|
    requires off >= 0 && budget <= 0
    requires forall k :: i <= k < j ==> es[k].RegularFile?
    ensures es[j] == Directory ==> Window(es, i, off, budget) == Failure(IsDir)
    ensures es[j].Unresolved? ==> Window(es, i, off, budget) == Failure(Propagated(es[j].cause))
    decreases j - i
  {
    if i < j {
      var size := es[i].size;
      if off > size {
        FirstBadEntryFails(es, i + 1, j, off - size, budget);
      } else {
        FirstBadEntryFails(es, i + 1, j, 0, Budget(budget, size - off));
      }
    }
  }

  /** Once the budget is reached the iteration stops: whatever follows the
      entries looked at, directories included, does not change the result. */
  lemma {:induction false} StopsAtBudget(es: seq<Lookup>, extra: seq<Lookup>, i: nat, off: int, budget: int)
    requires i <= |es|
    requires budget > 0
    requires Window(es, i, off, budget).Success? && Window(es, i, off, budget).value.length == budget
    ensures Window(es + extra, i, off, budget) == Window(es, i, off, budget)
    decreases |es| - i
  {
    var all := es + extra;
    if i < |es| {
      assert all[i] == es[i];
      match es[i]
      case Unresolved(_) =>
      case Directory =>
      case RegularFile(size) =>
        if off > size {
          StopsAtBudget(es, extra, i + 1, off - size, budget);
        } else if 0 <= off {
          var n := size - off;
          if !(budget > 0 && n >= budget) {
            StopsAtBudget(es, extra, i + 1, 0, Budget(budget, n));
          }
        }
    }
  }

  /** A file exactly as long as the remaining offset is kept, seeked to its
      end, and contributes nothing; the next file is read from its start
      with the budget unchanged. */
  lemma EqualSizeIsKept(es: seq<Lookup>, i: nat, off: nat, budget: int)
    requires i < |es| && es[i] == RegularFile(off)
    ensures Window(es, i, off, budget) == PrependAll([Reader(i, off, None)], 0, Window(es, i + 1, 0, Budget(budget, 0)))
    ensures Budget(budget, 0) == budget
  {
  }

  /** Two instances: the file of equal size is kept, and a shorter one is
      skipped. */
  lemma EqualSizeExamples()
    ensures CatSpec([RegularFile(5), RegularFile(3)], 5, -1)
            == Success(Slice([Reader(0, 5, None), Reader(1, 0, None)], 3))
    ensures CatSpec([RegularFile(4), RegularFile(3)], 5, -1)
            == Success(Slice([Reader(1, 1, None)], 2))
  {
    var a := [RegularFile(5), RegularFile(3)];
    assert Window(a, 2, 0, -1) == Success(Slice([], 0));
    assert [Reader(1, 0, None)] + [] == [Reader(1, 0, None)];
    assert Window(a, 1, 0, -1) == Success(Slice([Reader(1, 0, None)], 3));
    assert [Reader(0, 5, None)] + [Reader(1, 0, None)] == [Reader(0, 5, None), Reader(1, 0, None)];
    assert Window(a, 0, 5, -1) == Success(Slice([Reader(0, 5, None), Reader(1, 0, None)], 3));
    var b := [RegularFile(4), RegularFile(3)];
    assert Window(b, 2, 0, -1) == Success(Slice([], 0));
    assert [Reader(1, 1, None)] + [] == [Reader(1, 1, None)];
    assert Window(b, 1, 1, -1) == Success(Slice([Reader(1, 1, None)], 2));
  }

  // ---------------------------------------------------------------------
  // The command around the window

  /** The validated arguments of the command: the paths, the offset and the
      maximum length (-1 for no limit). */
  datatype CatRequest = CatRequest(paths: seq<string>, offset: int, max: int)

  /** The argument and option checks of the command, in the order it makes
      them. `precheck` is the outcome of the access checks the command makes
      between the token check and the offset check (token, account and
      online-mode checks against outside services); `bodyArgs` is the error,
      if any, of reading further arguments from the request body, the last
      check. An absent offset is 0. */
  function ParseCatRequest(args: seq<string>, token: Option<string>, precheck: Option<string>,
                           offset: Option<int>, length: Option<int>, bodyArgs: Option<string>)
    : (r: Result<CatRequest, CatError>)
    ensures r.Success? <==>
      && |args| == 1 && token.Some? && precheck.None?
      && (offset.Some? ==> offset.value >= 0)
      && (length.Some? ==> length.value >= 0)
      && bodyArgs.None?
    ensures r.Success? ==>
      && r.value.paths == args
      && r.value.offset == (if offset.Some? then offset.value else 0)
      && r.value.max == (if length.Some? then length.value else -1)
    ensures |args| > 1 ==> r == Failure(MultipleFiles)
    ensures |args| <= 1 && token.None? ==> r == Failure(MissingToken)
  {
    if |args| > 1 then Failure(MultipleFiles)
    else if token.None? then Failure(MissingToken)
    else if |args| == 0 then Failure(MissingPath)
    else if precheck.Some? then Failure(Rejected(precheck.value))
    else
      var off := if offset.Some? then offset.value else 0;
      if off < 0 then Failure(NegativeOffset)
      else
        var max := if length.Some? then length.value else 0;
        if max < 0 then Failure(NegativeLength)
        else if bodyArgs.Some? then Failure(BodyArgsFailed(bodyArgs.value))
        else Success(CatRequest(args, off, if length.None? then -1 else max))
  }

  /** The command: validate, then run the window. A validated request never
      seeks before the start of a file; with a given length the output never
      exceeds it, and without one it is everything after the offset. */
  method Run(args: seq<string>, token: Option<string>, precheck: Option<string>,
             offset: Option<int>, length: Option<int>, bodyArgs: Option<string>, lookup: string -> Lookup)
    returns (r: Result<Slice, CatError>)
    ensures r == match ParseCatRequest(args, token, precheck, offset, length, bodyArgs)
                 case Failure(e) => Failure(e)
                 case Success(q) => CatSpec(Entries(q.paths, lookup), q.offset, q.max)
    ensures r != Failure(NegativeSeek)
    ensures r.Success? && length.Some? ==> r.value.length <= length.value
    ensures r.Success? && length.None? && |args| == 1 ==>
              var es := Entries(args, lookup);
              AllFiles(es) ==> r.value.length == Available(es, 0, if offset.Some? then offset.value else 0)
  {
    var req := ParseCatRequest(args, token, precheck, offset, length, bodyArgs);
    if req.Failure? {
      return Failure(req.error);
    }
    var CatRequest(paths, off, max) := req.value;
    r := Cat(paths, lookup, off, max);
    WindowFailure(Entries(paths, lookup), 0, off, max);
    if r.Success? && max < 0 && AllFiles(Entries(paths, lookup)) {
      WindowLength(Entries(paths, lookup), 0, off, max);
    }
  }
}
