/** The list and string helpers of `CommonUtilCodes`: splitting a list by
    a ratio, turning text pasted from a spreadsheet into a list, finding
    broken images in a listing, and listing the small files of a tree.
    The shuffle before splitting, the image decoder and the file sizes are
    inputs. */
module Utils {
  import opened Wrappers
  import Text
  import Seqs
  import PosixPath

  // ---------------------------------------------------------------------
  // get_split_list
  // ---------------------------------------------------------------------

  /** The ratio `get_split_list` uses when none is given. */
  const DefaultRatio: seq<nat> := [8, 1, 1]

  /** Each part's truncated share, `int(total * (r / sum(ratio)))`. */
  function Shares(total: nat, ratio: seq<nat>, ratioSum: nat): (r: seq<nat>)
    requires ratioSum > 0
    ensures |r| == |ratio|
    ensures forall i :: 0 <= i < |ratio| ==> r[i] == total * ratio[i] / ratioSum
  {
    seq(|ratio|, i requires 0 <= i < |ratio| => total * ratio[i] / ratioSum)
  }

  /** The part lengths: every part but the last gets its truncated share,
      the last one what remains. An empty ratio fails on `lengths[-1]`, a
      ratio summing to zero on the division. */
  function SplitLengths(total: nat, ratio: seq<nat>): (r: Result<seq<nat>>)
    ensures r.Success? <==> |ratio| > 0 && Seqs.Sum(ratio) > 0
    ensures r.Success? ==> |r.value| == |ratio| && Seqs.Sum(r.value) == total
    ensures r.Success? ==> forall i :: 0 <= i < |ratio| - 1 ==> r.value[i] == total * ratio[i] / Seqs.Sum(ratio)
    ensures r.Success? ==> r.value[|ratio| - 1] >= total * ratio[|ratio| - 1] / Seqs.Sum(ratio)
  {
    if |ratio| == 0 then Failure("IndexError")
    else if Seqs.Sum(ratio) == 0 then Failure("ZeroDivisionError")
    else
      Seqs.SumNonNegative(ratio);
      var ratioSum: nat := Seqs.Sum(ratio);
      var shares := Shares(total, ratio, ratioSum);
      var n := |ratio| - 1;
      SharesBound(total, ratio, ratioSum);
      assert shares == shares[..n] + [shares[n]];
      Seqs.SumConcat(shares[..n], [shares[n]]);
      var head := shares[..n];
      var last: nat := total - Seqs.Sum(head);
      assert Seqs.Sum([last]) == last;
      Seqs.SumConcat(head, [last]);
      Success(head + [last])
  }

  /** `(x // d) * d <= x`. */
  lemma DivMulBound(x: nat, d: nat)
    requires d > 0
    ensures (x / d) * d <= x
  {
    assert x == (x / d) * d + x % d;
  }

  lemma MulCancel(a: int, b: int, d: nat)
    requires d > 0 && a * d <= b * d
    ensures a <= b
  {
    assert (b - a) * d >= 0;
  }

  /** The truncated shares never add up to more than the whole list. */
  lemma {:induction false} SharesBound(total: nat, ratio: seq<nat>, ratioSum: nat)
    requires ratioSum > 0 && Seqs.Sum(ratio) == ratioSum
    ensures Seqs.Sum(Shares(total, ratio, ratioSum)) <= total
  {
    SharesScaled(total, ratio, ratioSum);
    assert total * Seqs.Sum(ratio) == total * ratioSum;
    MulCancel(Seqs.Sum(Shares(total, ratio, ratioSum)), total, ratioSum);
  }

  lemma {:induction false} SharesScaled(total: nat, ratio: seq<nat>, ratioSum: nat)
    requires ratioSum > 0
    ensures Seqs.Sum(Shares(total, ratio, ratioSum)) * ratioSum <= total * Seqs.Sum(ratio)
    decreases |ratio|
  {
    if |ratio| > 0 {
      var n := |ratio| - 1;
      var shares := Shares(total, ratio, ratioSum);
      assert shares[..n] == Shares(total, ratio[..n], ratioSum);
      SharesScaled(total, ratio[..n], ratioSum);
      DivMulBound(total * ratio[n], ratioSum);
      var a := Seqs.Sum(shares[..n]);
      var b := shares[n];
      assert Seqs.Sum(shares) == a + b;
      assert (a + b) * ratioSum == a * ratioSum + b * ratioSum;
      assert total * Seqs.Sum(ratio) == total * Seqs.Sum(ratio[..n]) + total * ratio[n];
    }
  }

  /** Where part `i` starts: the sum of the lengths before it. */
  function Start(lengths: seq<nat>, i: nat): (s: nat)
    requires i <= |lengths|
    ensures s <= Seqs.Sum(lengths)
  {
    Seqs.SumPrefixBound(lengths, i);
    Seqs.Sum(lengths[..i])
  }

  /** `item_list[start:start + length]` for part `i`. */
  function Part<T>(items: seq<T>, lengths: seq<nat>, i: nat): (r: seq<T>)
    requires Seqs.Sum(lengths) == |items| && i < |lengths|
    ensures |r| == lengths[i]
  {
    Seqs.SumPrefixStep(lengths, i);
    Seqs.SumPrefixBound(lengths, i + 1);
    items[Start(lengths, i)..Start(lengths, i) + lengths[i]]
  }

  /** The parts cut at the start points, one per length. */
  function Divide<T>(items: seq<T>, lengths: seq<nat>): (parts: seq<seq<T>>)
    requires Seqs.Sum(lengths) == |items|
    ensures |parts| == |lengths|
    ensures forall i :: 0 <= i < |lengths| ==> |parts[i]| == lengths[i]
  {
    seq(|lengths|, i requires 0 <= i < |lengths| => Part(items, lengths, i))
  }

  /** The first `k` parts, put back together, are the first
      `sum(lengths[:k])` items. */
  lemma StartStep(lengths: seq<nat>, i: nat)
    requires i < |lengths|
    ensures Start(lengths, i + 1) == Start(lengths, i) + lengths[i]
  {
    Seqs.SumPrefixStep(lengths, i);
  }

  lemma DividePartAt<T>(items: seq<T>, lengths: seq<nat>, i: nat)
    requires Seqs.Sum(lengths) == |items| && i < |lengths|
    ensures Start(lengths, i) <= Start(lengths, i + 1) <= |items|
    ensures Divide(items, lengths)[i] == items[Start(lengths, i)..Start(lengths, i + 1)]
  {
    StartStep(lengths, i);
  }

  lemma {:induction false} DividePrefix<T>(items: seq<T>, lengths: seq<nat>, k: nat)
    requires Seqs.Sum(lengths) == |items| && k <= |lengths|
    ensures Seqs.Concat(Divide(items, lengths)[..k]) == items[..Start(lengths, k)]
  {
    if k == 0 {
      assert lengths[..0] == [];
    } else {
      DividePrefix(items, lengths, k - 1);
      DividePrefixStep(items, lengths, k);
    }
  }

  lemma DividePrefixStep<T>(items: seq<T>, lengths: seq<nat>, k: nat)
    requires Seqs.Sum(lengths) == |items| && 0 < k <= |lengths|
    requires Seqs.Concat(Divide(items, lengths)[..k - 1]) == items[..Start(lengths, k - 1)]
    ensures Seqs.Concat(Divide(items, lengths)[..k]) == items[..Start(lengths, k)]
  {
    Seqs.ConcatSnoc(Divide(items, lengths), k);
    DividePartAt(items, lengths, k - 1);
    Seqs.SliceJoin(items, Start(lengths, k - 1), Start(lengths, k));
  }

  /** Putting the parts back together in order gives the list back. */
  lemma DivideConcat<T>(items: seq<T>, lengths: seq<nat>)
    requires Seqs.Sum(lengths) == |items|
    ensures Seqs.Concat(Divide(items, lengths)) == items
  {
    var parts := Divide(items, lengths);
    DividePrefix(items, lengths, |lengths|);
    assert parts[..|lengths|] == parts;
    assert lengths[..|lengths|] == lengths;
  }

  /** `get_split_list(item_list, ratio)` on a list already shuffled. */
  function SplitList<T>(items: seq<T>, ratio: seq<nat>): Result<seq<seq<T>>> {
    match SplitLengths(|items|, ratio)
    case Failure(e) => Failure(e)
    case Success(lengths) => Success(Divide(items, lengths))
  }

  /** One part per ratio entry, each non-last part as long as its truncated
      share, the last no shorter than its own, and together, in order,
      exactly the list; only an empty ratio or one summing to zero fails. */
  lemma SplitListParts<T>(items: seq<T>, ratio: seq<nat>)
    ensures SplitList(items, ratio).Success? <==> |ratio| > 0 && Seqs.Sum(ratio) > 0
    ensures var r := SplitList(items, ratio);
      r.Success? ==>
        && |r.value| == |ratio|
        && Seqs.Concat(r.value) == items
        && (forall i :: 0 <= i < |ratio| - 1 ==> |r.value[i]| == |items| * ratio[i] / Seqs.Sum(ratio))
        && |r.value[|ratio| - 1]| >= |items| * ratio[|ratio| - 1] / Seqs.Sum(ratio)
  {
    var r := SplitLengths(|items|, ratio);
    if r.Success? {
      DivideConcat(items, r.value);
    }
  }

  /** With the default ratio, ten items split 8 / 1 / 1. */
  lemma DefaultSplitOfTen<T>(items: seq<T>)
    requires |items| == 10
    ensures var r := SplitList(items, DefaultRatio);
      && r.Success?
      && r.value == [items[..8], items[8..9], items[9..]]
  {
    DefaultLengthsOfTen();
    DefaultStarts();
    DividePartAt(items, [8, 1, 1], 0);
    DividePartAt(items, [8, 1, 1], 1);
    DividePartAt(items, [8, 1, 1], 2);
    assert items[0..8] == items[..8] && items[9..10] == items[9..];
    assert Divide(items, [8, 1, 1]) == [items[..8], items[8..9], items[9..]];
  }

  lemma DefaultLengthsOfTen()
    ensures SplitLengths(10, DefaultRatio).Success?
    ensures SplitLengths(10, DefaultRatio).value == [8, 1, 1]
  {
    Seqs.SumOfThree(DefaultRatio);
    Seqs.SumOfThree(SplitLengths(10, DefaultRatio).value);
  }

  lemma DefaultStarts()
    ensures Start([8, 1, 1], 0) == 0 && Start([8, 1, 1], 1) == 8
    ensures Start([8, 1, 1], 2) == 9 && Start([8, 1, 1], 3) == 10
  {
    Seqs.SumOfThree([8, 1, 1]);
  }

  // ---------------------------------------------------------------------
  // get_list_from_excel_copy
  // ---------------------------------------------------------------------

  /** A line that survives: something besides whitespace is on it. */
  predicate NonBlank(line: string) {
    Text.Strip(line) != ""
  }

  /** What a surviving line becomes: stripped, with every `'` removed. */
  function CleanLine(line: string): (r: string)
    ensures '\'' !in r
  {
    Text.Remove(Text.Strip(line), '\'')
  }

  /** What one line contributes: nothing if blank, else its cleaned form. */
  function Kept(line: string): (r: seq<string>)
    ensures |r| <= 1
    ensures forall i :: 0 <= i < |r| ==> '\'' !in r[i]
  {
    if NonBlank(line) then [CleanLine(line)] else []
  }

  /** The comprehension over the lines: blank lines dropped, the others
      cleaned, in order. */
  function CleanLines(lines: seq<string>): (r: seq<string>)
    ensures |r| <= |lines|
    ensures forall i :: 0 <= i < |r| ==> '\'' !in r[i]
  {
    if |lines| == 0 then [] else Kept(lines[0]) + CleanLines(lines[1..])
  }

  /** `get_list_from_excel_copy(long_str)`. */
  function PastedList(text: string): (r: seq<string>)
    ensures forall i :: 0 <= i < |r| ==> '\'' !in r[i]
  {
    CleanLines(Text.Split(Text.Strip(text), '\n'))
  }

  /** The comprehension is the non-blank lines, in order, each cleaned. */
  lemma {:induction false} CleanLinesKeepsNonBlank(lines: seq<string>)
    ensures var kept := Seqs.Filter(NonBlank, lines);
      && |CleanLines(lines)| == |kept|
      && forall i :: 0 <= i < |kept| ==> CleanLines(lines)[i] == CleanLine(kept[i])
  {
    CleanLinesIsMapFilter(lines);
    Seqs.MapFilterIsMapOfFilter(NonBlank, CleanLine, lines);
  }

  lemma {:induction false} CleanLinesIsMapFilter(lines: seq<string>)
    ensures CleanLines(lines) == Seqs.MapFilter(NonBlank, CleanLine, lines)
  {
    if |lines| > 0 {
      CleanLinesIsMapFilter(lines[1..]);
    }
  }

  lemma {:induction false} CleanLinesConcat(a: seq<string>, b: seq<string>)
    ensures CleanLines(a + b) == CleanLines(a) + CleanLines(b)
    decreases |a|
  {
    if |a| == 0 {
      assert a + b == b;
    } else {
      assert (a + b)[1..] == a[1..] + b;
      CleanLinesConcat(a[1..], b);
    }
  }

  /** Two lines that strip alike are cleaned alike. */
  lemma SameStripSameClean(x: string, y: string, rest: seq<string>)
    requires Text.Strip(x) == Text.Strip(y)
    ensures CleanLines([x] + rest) == CleanLines([y] + rest)
    ensures CleanLines([x]) == CleanLines([y])
  {
    assert ([x] + rest)[1..] == rest;
    assert ([y] + rest)[1..] == rest;
  }

  lemma BlankLineDropped(rest: seq<string>)
    ensures CleanLines([""] + rest) == CleanLines(rest)
  {
    assert ([""] + rest)[1..] == rest;
    Text.StripUnchanged("");
  }

  lemma BlankLineAlone()
    ensures CleanLines([""]) == []
  {
    BlankLineDropped([]);
    assert [""] + [] == [""];
  }

  lemma HeadTail<T>(s: seq<T>)
    requires |s| >= 1
    ensures s == [s[0]] + s[1..]
    ensures s == s[..|s| - 1] + [s[|s| - 1]]
  {
  }

  lemma SplitCons(c: char, s: string)
    ensures var rest := Text.Split(s, '\n');
      Text.Split([c] + s, '\n') == if c == '\n' then [""] + rest else [[c] + rest[0]] + rest[1..]
  {
    assert ([c] + s)[1..] == s;
  }

  /** A whitespace character in front of the text changes none of the
      cleaned lines: a newline only opens a blank line, any other
      whitespace is stripped from the first line. */
  lemma LeadingSpaceIgnored(c: char, s: string)
    requires Text.IsSpace(c)
    ensures CleanLines(Text.Split([c] + s, '\n')) == CleanLines(Text.Split(s, '\n'))
  {
    var rest := Text.Split(s, '\n');
    SplitCons(c, s);
    if c == '\n' {
      BlankLineDropped(rest);
    } else {
      Text.StripSpaceCons(c, rest[0]);
      SameStripSameClean([c] + rest[0], rest[0], rest[1..]);
      HeadTail(rest);
    }
  }

  /** A whitespace character after the text changes none of the cleaned
      lines either. */
  lemma TrailingSpaceIgnored(s: string, c: char)
    requires Text.IsSpace(c)
    ensures CleanLines(Text.Split(s + [c], '\n')) == CleanLines(Text.Split(s, '\n'))
  {
    var p := Text.Split(s, '\n');
    var n := |p| - 1;
    HeadTail(p);
    CleanLinesConcat(p[..n], [p[n]]);
    if c == '\n' {
      Text.SplitSnocSeparator(s, '\n');
      CleanLinesConcat(p, [""]);
      BlankLineAlone();
    } else {
      Text.SplitSnocOther(s, c, '\n');
      CleanLinesConcat(p[..n], [p[n] + [c]]);
      Text.StripSpaceSnoc(p[n], c);
      SameStripSameClean(p[n] + [c], p[n], []);
    }
  }

  lemma {:induction false} LeadingSpacesIgnored(a: string, m: string)
    requires Text.AllSpace(a)
    ensures CleanLines(Text.Split(a + m, '\n')) == CleanLines(Text.Split(m, '\n'))
    decreases |a|
  {
    if |a| == 0 {
      assert a + m == m;
    } else {
      assert a + m == [a[0]] + (a[1..] + m);
      assert Text.AllSpace(a[1..]) by {
        forall i | 0 <= i < |a[1..]| ensures Text.IsSpace(a[1..][i]) {
          assert a[1..][i] == a[i + 1];
        }
      }
      LeadingSpaceIgnored(a[0], a[1..] + m);
      LeadingSpacesIgnored(a[1..], m);
    }
  }

  lemma {:induction false} TrailingSpacesIgnored(m: string, b: string)
    requires Text.AllSpace(b)
    ensures CleanLines(Text.Split(m + b, '\n')) == CleanLines(Text.Split(m, '\n'))
    decreases |b|
  {
    if |b| == 0 {
      assert m + b == m;
    } else {
      var n := |b| - 1;
      assert m + b == (m + b[..n]) + [b[n]];
      assert Text.AllSpace(b[..n]) by {
        forall i | 0 <= i < n ensures Text.IsSpace(b[..n][i]) {
          assert b[..n][i] == b[i];
        }
      }
      TrailingSpaceIgnored(m + b[..n], b[n]);
      TrailingSpacesIgnored(m, b[..n]);
    }
  }

  /** The outer `strip()` of the pasted text changes nothing: every line is
      stripped again and blank lines are dropped anyway, so the result is
      the non-blank lines of the raw text, in order, each cleaned. */
  lemma PastedListIgnoresOuterStrip(text: string)
    ensures PastedList(text) == CleanLines(Text.Split(text, '\n'))
    ensures var kept := Seqs.Filter(NonBlank, Text.Split(text, '\n'));
      && |PastedList(text)| == |kept|
      && forall i :: 0 <= i < |kept| ==> PastedList(text)[i] == CleanLine(kept[i])
  {
    var before, after := Text.StripSplit(text);
    LeadingSpacesIgnored(before, Text.Strip(text) + after);
    TrailingSpacesIgnored(Text.Strip(text), after);
    CleanLinesKeepsNonBlank(Text.Split(text, '\n'));
  }

  // ---------------------------------------------------------------------
  // find_error_image
  // ---------------------------------------------------------------------

  /** The extensions `find_error_image` tries to decode. */
  const ImageExtensions: seq<string> := [".png", ".jpg", ".jpeg", ".gif"]

  /** `file.lower().endswith(('.png', '.jpg', '.jpeg', '.gif'))`. */
  predicate IsImageName(name: string) {
    exists k :: 0 <= k < |ImageExtensions| && Text.EndsWith(Text.Lower(name), ImageExtensions[k])
  }

  /** The image test ignores case: a name and its lower-case form are
      judged alike, so `"A.PNG"` counts and `"a.txt"` does not. */
  lemma ImageNameIgnoresCase(name: string)
    ensures IsImageName(name) <==> IsImageName(Text.Lower(name))
    ensures IsImageName("A.PNG") && !IsImageName("a.txt")
  {
    assert Text.Lower(Text.Lower(name)) == Text.Lower(name);
    assert Text.Lower("A.PNG") == "a.png";
    assert Text.EndsWith(Text.Lower("A.PNG"), ImageExtensions[0]);
    var l := Text.Lower("a.txt");
    assert l == "a.txt";
    assert l[1..] == ".txt";
    forall k | 0 <= k < |ImageExtensions|
      ensures !Text.EndsWith(l, ImageExtensions[k])
    {
      assert ImageExtensions[k][|ImageExtensions[k]| - 1] != 't';
    }
  }

  /** A file `find_error_image` reports: an image by name that the decoder
      cannot read from `dir`. */
  function BrokenImage(dir: string, readable: string -> bool): string -> bool {
    file => IsImageName(file) && !readable(PosixPath.Join(dir, file))
  }

  /** `find_error_image(dir_path)` over the listing `files`; `readable`
      stands for `cv2.imread` returning an image. */
  method FindErrorImages(dir: string, files: seq<string>, readable: string -> bool) returns (errors: seq<string>)
    ensures errors == Seqs.Filter(BrokenImage(dir, readable), files)
  {
    var broken := BrokenImage(dir, readable);
    errors := [];
    var i := 0;
    while i < |files|
      invariant 0 <= i <= |files|
      invariant errors == Seqs.Filter(broken, files[..i])
    {
      var file := files[i];
      Seqs.FilterConcat(broken, files[..i], [file]);
      assert files[..i + 1] == files[..i] + [file];
      assert [file][1..] == [];
      if IsImageName(file) && !readable(PosixPath.Join(dir, file)) {
        errors := errors + [file];
      }
      i := i + 1;
    }
    assert files[..i] == files;
  }

  /** A listed file is reported exactly when its name is an image's and
      it does not decode; the report keeps the listing order. */
  lemma ErrorImagesExactly(dir: string, files: seq<string>, readable: string -> bool, file: string)
    ensures file in Seqs.Filter(BrokenImage(dir, readable), files) <==>
      file in files && IsImageName(file) && !readable(PosixPath.Join(dir, file))
  {
    var r := Seqs.Filter(BrokenImage(dir, readable), files);
    if file in r {
      var k :| 0 <= k < |r| && r[k] == file;
    }
    if file in files {
      var k :| 0 <= k < |files| && files[k] == file;
    }
  }

  // ---------------------------------------------------------------------
  // file_size_check
  // ---------------------------------------------------------------------

  /** Files of at most this many bytes are listed. */
  const SizeLimit: nat := 100000

  /** A listed file and what `os.path.getsize` gives for it; `None` stands
      for the `FileNotFoundError` it raises when the file is gone. */
  datatype FileStat = FileStat(name: string, size: Option<nat>)

  /** One folder of the walk: its path and its files, in listing order. */
  datatype Folder = Folder(path: string, files: seq<FileStat>)

  /** One row of the result: `(file_name, file_path, file_size)`. */
  datatype SmallFile = SmallFile(name: string, path: string, size: nat)

  predicate AllPresent(files: seq<FileStat>) {
    forall i :: 0 <= i < |files| ==> files[i].size.Some?
  }

  /** The row a file gives; only present files ever make one, so the size
      of a missing one is never read. */
  function RowOf(folder: string, f: FileStat): SmallFile {
    SmallFile(f.name, PosixPath.Join(folder, f.name), match f.size case Some(n) => n case None => 0)
  }

  /** The rows of one folder: a file that has gone missing ends the folder,
      because the `try` encloses the whole loop over its files. */
  function FolderSmallFiles(folder: string, files: seq<FileStat>): (r: seq<SmallFile>)
    ensures |r| <= |files|
    ensures forall i :: 0 <= i < |r| ==> r[i].size <= SizeLimit && r[i].path == PosixPath.Join(folder, r[i].name)
  {
    if |files| == 0 then []
    else match files[0].size
      case None => []
      case Some(size) =>
        (if size <= SizeLimit then [RowOf(folder, files[0])] else []) + FolderSmallFiles(folder, files[1..])
  }

  /** `file_size_check(check_dir)` over the walk of `check_dir`. */
  function FileSizeCheck(walk: seq<Folder>): (r: seq<SmallFile>)
    ensures forall i :: 0 <= i < |r| ==> r[i].size <= SizeLimit
  {
    if |walk| == 0 then []
    else FolderSmallFiles(walk[0].path, walk[0].files) + FileSizeCheck(walk[1..])
  }

  /** The walk's rows are each folder's rows, in walk order. */
  lemma {:induction false} FileSizeCheckConcat(a: seq<Folder>, b: seq<Folder>)
    ensures FileSizeCheck(a + b) == FileSizeCheck(a) + FileSizeCheck(b)
  {
    if |a| > 0 {
      assert (a + b)[0] == a[0];
      assert (a + b)[1..] == a[1..] + b;
      FileSizeCheckConcat(a[1..], b);
    } else {
      assert a + b == b;
    }
  }

  /** When no file of the walk has gone missing, a row is listed exactly
      when it is the row of some small file of some folder. */
  lemma {:induction false} FileSizeCheckMembers(walk: seq<Folder>, x: SmallFile)
    requires forall i :: 0 <= i < |walk| ==> AllPresent(walk[i].files)
    ensures x in FileSizeCheck(walk) <==>
      exists i, j :: 0 <= i < |walk| && 0 <= j < |walk[i].files|
                     && IsSmall(walk[i].files[j]) && x == RowOf(walk[i].path, walk[i].files[j])
  {
    if |walk| > 0 {
      var rest := walk[1..];
      assert forall i :: 0 <= i < |rest| ==> rest[i] == walk[i + 1];
      FileSizeCheckMembers(rest, x);
      FolderMembers(walk[0].path, walk[0].files, x);
      if exists i, j :: 0 <= i < |walk| && 0 <= j < |walk[i].files|
                        && IsSmall(walk[i].files[j]) && x == RowOf(walk[i].path, walk[i].files[j]) {
        var i, j :| 0 <= i < |walk| && 0 <= j < |walk[i].files|
                    && IsSmall(walk[i].files[j]) && x == RowOf(walk[i].path, walk[i].files[j]);
        if i > 0 {
          assert rest[i - 1] == walk[i];
        }
      }
    }
  }

  /** When every file of a folder is still there, a row is listed exactly
      when it is the row of one of its small files. */
  lemma FolderMembers(folder: string, files: seq<FileStat>, x: SmallFile)
    requires AllPresent(files)
    ensures x in FolderSmallFiles(folder, files) <==>
      exists j :: 0 <= j < |files| && IsSmall(files[j]) && x == RowOf(folder, files[j])
  {
    var row := f => RowOf(folder, f);
    FolderSmallFilesIsMapFilter(folder, files, row);
    Seqs.MapFilterMembers(IsSmall, row, files, x);
  }

  /** A present file of at most `SizeLimit` bytes, the boundary included. */
  predicate IsSmall(f: FileStat) {
    f.size.Some? && f.size.value <= SizeLimit
  }

  /** When every file of a folder is still there, its rows are exactly the
      small files, in order, each with its joined path and size. */
  lemma {:induction false} SmallFilesExactly(folder: string, files: seq<FileStat>)
    requires AllPresent(files)
    ensures var small := Seqs.Filter(IsSmall, files);
      && |FolderSmallFiles(folder, files)| == |small|
      && forall i :: 0 <= i < |small| ==> FolderSmallFiles(folder, files)[i] == RowOf(folder, small[i])
  {
    var row := f => RowOf(folder, f);
    FolderSmallFilesIsMapFilter(folder, files, row);
    Seqs.MapFilterIsMapOfFilter(IsSmall, row, files);
  }

  lemma {:induction false} FolderSmallFilesIsMapFilter(folder: string, files: seq<FileStat>, row: FileStat -> SmallFile)
    requires AllPresent(files)
    requires forall f :: row(f) == RowOf(folder, f)
    ensures FolderSmallFiles(folder, files) == Seqs.MapFilter(IsSmall, row, files)
  {
    if |files| > 0 {
      assert AllPresent(files[1..]) by {
        forall i | 0 <= i < |files[1..]| ensures files[1..][i].size.Some? {
          assert files[1..][i] == files[i + 1];
        }
      }
      FolderSmallFilesIsMapFilter(folder, files[1..], row);
      assert files[0].size.Some?;
    }
  }

  /** A file that has gone missing drops itself and every file listed after
      it in the same folder. */
  lemma {:induction false} MissingFileEndsFolder(folder: string, before: seq<FileStat>, gone: FileStat, after: seq<FileStat>)
    requires AllPresent(before) && gone.size.None?
    ensures FolderSmallFiles(folder, before + [gone] + after) == FolderSmallFiles(folder, before)
    decreases |before|
  {
    if |before| == 0 {
      assert before + [gone] + after == [gone] + after;
    } else {
      assert (before + [gone] + after)[1..] == before[1..] + [gone] + after;
      MissingFileEndsFolder(folder, before[1..], gone, after);
    }
  }
}
