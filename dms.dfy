/** Dms/Dms.cs: one DMS measurement. The constructor takes the grid shape from
    the run of equal compensation voltages (Usv) at the start of the scan, and
    the folder name from the file path. */
module DmsMeasurement {

  /** Path.DirectorySeparatorChar on Windows, where the tool runs. */
  const DirectorySeparatorChar: char := '\\'

  /** string.Split(separator): the pieces between separators, empty pieces kept. */
  function Split(s: string, sep: char): (parts: seq<string>)
    ensures |parts| >= 1
    ensures forall k :: 0 <= k < |parts| ==> sep !in parts[k]
    decreases |s|
  {
    if s == [] then [""]
    else
      var rest := Split(s[1..], sep);
      if s[0] == sep then [""] + rest
      else [[s[0]] + rest[0]] + rest[1..]
  }

  /** string.Join(separator, parts). */
  function Join(parts: seq<string>, sep: char): string
    requires |parts| >= 1
    decreases |parts|
  {
    if |parts| == 1 then parts[0] else parts[0] + [sep] + Join(parts[1..], sep)
  }

  /** How often `c` occurs in `s`. */
  function Occurrences(s: string, c: char): nat {
    if s == [] then 0 else (if s[0] == c then 1 else 0) + Occurrences(s[1..], c)
  }

  /** Joining the pieces with the separator gives the string back. */
  lemma {:induction false} JoinSplit(s: string, sep: char)
    ensures Join(Split(s, sep), sep) == s
    decreases |s|
  {
    if s != [] {
      JoinSplit(s[1..], sep);
      var rest := Split(s[1..], sep);
      if s[0] == sep {
        assert Split(s, sep) == [""] + rest;
        assert ([""] + rest)[1..] == rest;
        assert s == [s[0]] + s[1..];
      } else {
        var parts := [[s[0]] + rest[0]] + rest[1..];
        assert Split(s, sep) == parts;
        if |rest| == 1 {
          assert s == [s[0]] + rest[0];
        } else {
          assert parts[1..] == rest[1..];
          assert Join(rest, sep) == rest[0] + [sep] + Join(rest[1..], sep);
          assert s == [s[0]] + s[1..];
        }
      }
    }
  }

  /** One piece per separator, plus one. */
  lemma {:induction false} SplitCount(s: string, sep: char)
    ensures |Split(s, sep)| == Occurrences(s, sep) + 1
    decreases |s|
  {
    if s != [] {
      SplitCount(s[1..], sep);
    }
  }

  /** A prefix without separators becomes part of the first piece. */
  lemma {:induction false} SplitPrefix(p: string, t: string, sep: char)
    requires sep !in p
    ensures Split(p + t, sep) == [p + Split(t, sep)[0]] + Split(t, sep)[1..]
    decreases |p|
  {
    if p != [] {
      assert (p + t)[1..] == p[1..] + t;
      assert (p + t)[0] == p[0];
      SplitPrefix(p[1..], t, sep);
      var st := Split(t, sep);
      var rest := Split(p[1..] + t, sep);
      assert rest[0] == p[1..] + st[0] && rest[1..] == st[1..];
      assert p[0] != sep;
      assert Split(p + t, sep) == [[p[0]] + rest[0]] + rest[1..];
      assert [p[0]] + (p[1..] + st[0]) == p + st[0];
    } else {
      var st := Split(t, sep);
      assert p + t == t && p + st[0] == st[0];
      assert st == [st[0]] + st[1..];
    }
  }

  /** Splitting a join of separator-free pieces gives the pieces back. */
  lemma {:induction false} SplitJoin(parts: seq<string>, sep: char)
    requires |parts| >= 1
    requires forall k :: 0 <= k < |parts| ==> sep !in parts[k]
    ensures Split(Join(parts, sep), sep) == parts
    decreases |parts|
  {
    if |parts| == 1 {
      SplitPrefix(parts[0], "", sep);
      assert parts[0] + "" == parts[0];
    } else {
      var rest := Join(parts[1..], sep);
      assert Split([sep] + rest, sep) == [""] + parts[1..] by {
        SplitJoin(parts[1..], sep);
        assert ([sep] + rest)[1..] == rest;
      }
      assert Join(parts, sep) == parts[0] + ([sep] + rest);
      SplitPrefix(parts[0], [sep] + rest, sep);
      assert parts[0] + "" == parts[0];
      assert parts == [parts[0]] + parts[1..];
    }
  }

  /** The path has a folder: it splits into at least two pieces. */
  predicate HasFolder(path: string) {
    |Split(path, DirectorySeparatorChar)| >= 2
  }

  /** fullpath.Split(Path.DirectorySeparatorChar)[^2]. */
  function Folder(path: string): string
    requires HasFolder(path)
  {
    var parts := Split(path, DirectorySeparatorChar);
    parts[|parts| - 2]
  }

  /** A path has a folder exactly when it contains a separator. */
  lemma HasFolderIffSeparator(path: string)
    ensures HasFolder(path) <==> DirectorySeparatorChar in path
  {
    SplitCount(path, DirectorySeparatorChar);
    OccurrencesIn(path, DirectorySeparatorChar);
  }

  lemma {:induction false} OccurrencesIn(s: string, c: char)
    ensures Occurrences(s, c) > 0 <==> c in s
    decreases |s|
  {
    if s != [] {
      OccurrencesIn(s[1..], c);
      assert s == [s[0]] + s[1..];
    }
  }

  /** The folder of `...\folder\file` is `folder`. */
  lemma FolderOfPath(dirs: seq<string>, folder: string, file: string)
    requires forall k :: 0 <= k < |dirs| ==> DirectorySeparatorChar !in dirs[k]
    requires DirectorySeparatorChar !in folder && DirectorySeparatorChar !in file
    ensures HasFolder(Join(dirs + [folder, file], DirectorySeparatorChar))
    ensures Folder(Join(dirs + [folder, file], DirectorySeparatorChar)) == folder
  {
    var parts := dirs + [folder, file];
    SplitJoin(parts, DirectorySeparatorChar);
  }

  /** The first index from `i` on whose voltage differs from usv[0], or the
      length when there is none. */
  function FirstChange(usv: seq<real>, i: nat): (k: nat)
    requires 0 < |usv| && i <= |usv|
    ensures i <= k <= |usv|
    ensures forall j :: i <= j < k ==> usv[j] == usv[0]
    ensures k < |usv| ==> usv[k] != usv[0]
    decreases |usv| - i
  {
    if i == |usv| then i
    else if usv[i] != usv[0] then i
    else FirstChange(usv, i + 1)
  }

  /** Width: the length of the initial run of equal voltages, at least 1. */
  function Width(usv: seq<real>): nat
    requires |usv| >= 2
  {
    FirstChange(usv, 1)
  }

  /** The initial run: every voltage before Width equals the first, the one at
      Width (if any) differs, and Width lies between 1 and the length. */
  lemma WidthIsRun(usv: seq<real>)
    requires |usv| >= 2
    ensures 1 <= Width(usv) <= |usv|
    ensures forall j :: 0 <= j < Width(usv) ==> usv[j] == usv[0]
    ensures Width(usv) < |usv| ==> usv[Width(usv)] != usv[0]
  {
  }

  /** Height = usv.Length / Width: the grid fits in the scan, and less than a
      further row is left over. */
  lemma ShapeFits(usv: seq<real>)
    requires |usv| >= 2
    ensures Width(usv) * (|usv| / Width(usv)) <= |usv| < Width(usv) * (|usv| / Width(usv) + 1)
    ensures |usv| / Width(usv) >= 1
  {
    var w := Width(usv);
    var h := |usv| / w;
    assert |usv| == w * h + |usv| % w;
  }

  /** The while loop of the constructor: usv[1] is read before any bound
      check, and i stops at the first differing voltage or at the end. */
  method ScanWidth(usv: array<real>) returns (i: nat)
    requires usv.Length >= 2
    ensures i == Width(usv[..])
  {
    var firstUsv := usv[0];
    i := 1;
    while true
      invariant 1 <= i < usv.Length
      invariant FirstChange(usv[..], i) == Width(usv[..])
      decreases usv.Length - i
    {
      if usv[i] != firstUsv {
        break;
      }
      i := i + 1;
      if i >= usv.Length {
        break;
      }
    }
  }

  /** A loaded measurement. Its properties are set once, by the constructor. */
  class Dms {
    const width: nat
    const height: nat
    const fullPath: string
    const folder: string
    /** Data: the scan's IntensityTop. */
    const data: array<real>
    const intensityBottom: array<real>

    constructor(usv: array<real>, intensityTop: array<real>, intensityBottom: array<real>, fullPath: string)
      requires usv.Length >= 2
      requires HasFolder(fullPath)
      ensures width == Width(usv[..]) && height == usv.Length / width
      ensures this.fullPath == fullPath && folder == Folder(fullPath)
      ensures data == intensityTop && this.intensityBottom == intensityBottom
    {
      this.fullPath := fullPath;
      folder := Folder(fullPath);
      var w := ScanWidth(usv);
      width := w;
      height := usv.Length / w;
      data := intensityTop;
      this.intensityBottom := intensityBottom;
    }
  }
}
