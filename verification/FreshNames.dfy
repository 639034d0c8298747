/** Replacement names for duplicate files: `report.png` becomes `report (2).png`. */
module FreshNames {
  import opened Strings

  // ---------------------------------------------------------------- path.extname

  /** The name without the slashes it ends with. */
  function TrimSlashes(s: string): string {
    if s != [] && s[|s| - 1] == '/' then TrimSlashes(s[..|s| - 1]) else s
  }

  /** Node's POSIX `path.extname`: the part of the last path segment from its last dot on, empty
      when that dot starts the segment or the segment is "..". */
  function ExtName(filename: string): (ext: string)
    ensures |ext| <= |filename|
  {
    var path := TrimSlashes(filename);
    TrimSlashesShortens(filename);
    var segment := path[LastIndexOf(path, '/') + 1..];
    var dot := LastIndexOf(segment, '.');
    if dot <= 0 || segment == ".." then "" else segment[dot..]
  }

  lemma {:induction false} TrimSlashesShortens(s: string)
    ensures |TrimSlashes(s)| <= |s|
  {
    if s != [] && s[|s| - 1] == '/' {
      TrimSlashesShortens(s[..|s| - 1]);
    }
  }

  /** The source's `suffixFilename`. */
  function SuffixFilename(filename: string, n: nat): string {
    var extension := ExtName(filename);
    var base := filename[..|filename| - |extension|];
    base + " (" + Numeral(n) + ")" + extension
  }

  /** The number goes into the name in parentheses, and everything else stays, for every name that does not end with a
      slash. */
  lemma SuffixInserts(filename: string, n: nat) returns (k: nat)
    requires filename != "" ==> filename[|filename| - 1] != '/'
    ensures k <= |filename| && SuffixFilename(filename, n) == filename[..k] + " (" + Numeral(n) + ")" + filename[k..]
  {
    k := ExtNameStart(filename);
    SuffixAt(filename, n, k);
  }

  lemma SuffixAt(filename: string, n: nat, k: nat)
    requires k <= |filename| && filename[k..] == ExtName(filename)
    ensures SuffixFilename(filename, n) == filename[..k] + " (" + Numeral(n) + ")" + filename[k..]
  {
    assert |ExtName(filename)| == |filename| - k;
  }

  lemma ExtNameStart(filename: string) returns (k: nat)
    requires filename != "" ==> filename[|filename| - 1] != '/'
    ensures k <= |filename| && filename[k..] == ExtName(filename)
  {
    assert TrimSlashes(filename) == filename;
    var start := LastIndexOf(filename, '/') + 1;
    var segment := filename[start..];
    var dot := LastIndexOf(segment, '.');
    if dot <= 0 || segment == ".." {
      k := |filename|;
    } else {
      k := start + dot;
      assert segment[dot..] == filename[k..];
    }
  }

  /** The extension is what follows the last dot of the last path segment, dot included; slashes at the end do not count. */
  lemma ExtensionOfPath(folder: string, stem: string, ext: string, slashes: string)
    requires folder == "" || folder[|folder| - 1] == '/'
    requires forall i :: 0 <= i < |slashes| ==> slashes[i] == '/'
    requires stem != [] && '/' !in stem && '/' !in ext && '.' !in ext && stem + "." + ext != ".."
    ensures ExtName(folder + (stem + "." + ext) + slashes) == "." + ext
  {
    var segment := stem + "." + ext;
    LastDot(stem, ext);
    LastCharacter(folder, segment);
    TrimAllSlashes(folder + segment, slashes);
    SlashEnds(folder, segment);
    var path := folder + segment + slashes;
    assert TrimSlashes(path)[LastIndexOf(TrimSlashes(path), '/') + 1..] == segment;
  }

  lemma LastCharacter(folder: string, segment: string)
    requires segment != "" && '/' !in segment
    ensures (folder + segment)[|folder + segment| - 1] != '/'
  {
    assert (folder + segment)[|folder + segment| - 1] == segment[|segment| - 1];
    assert segment[|segment| - 1] in segment;
  }

  lemma LastDot(stem: string, ext: string)
    requires '/' !in stem && '/' !in ext && '.' !in ext
    ensures var segment := stem + "." + ext;
            && '/' !in segment && LastIndexOf(segment, '.') == |stem| && segment[|stem|..] == "." + ext
  {
    var segment := stem + "." + ext;
    assert segment[|stem|] == '.' && forall j :: |stem| < j < |segment| ==> segment[j] == ext[j - |stem| - 1];
  }

  lemma {:induction false} TrimAllSlashes(path: string, slashes: string)
    requires path != "" && path[|path| - 1] != '/'
    requires forall i :: 0 <= i < |slashes| ==> slashes[i] == '/'
    ensures TrimSlashes(path + slashes) == path
  {
    if slashes == "" {
      assert path + slashes == path;
    } else {
      assert (path + slashes)[..|path + slashes| - 1] == path + slashes[..|slashes| - 1];
      TrimAllSlashes(path, slashes[..|slashes| - 1]);
    }
  }

  lemma SlashEnds(folder: string, segment: string)
    requires (folder == "" || folder[|folder| - 1] == '/') && '/' !in segment
    ensures LastIndexOf(folder + segment, '/') == |folder| - 1 && (folder + segment)[|folder|..] == segment
  {
    var path := folder + segment;
    assert forall j :: |folder| <= j < |path| ==> path[j] == segment[j - |folder|];
    if folder != "" {
      assert path[|folder| - 1] == '/';
    }
  }

  /** A segment whose only dot starts it has no extension, and neither has one without a dot. */
  lemma NoExtension(folder: string, stem: string)
    requires folder == "" || folder[|folder| - 1] == '/'
    requires '/' !in stem && '.' !in stem
    ensures ExtName(folder + "." + stem) == "" && (stem != "" ==> ExtName(folder + stem) == "")
  {
    var dotted := "." + stem;
    assert folder + "." + stem == folder + dotted;
    NoLateDot(folder, dotted);
    if stem != "" {
      NoLateDot(folder, stem);
    }
  }

  lemma NoLateDot(folder: string, segment: string)
    requires folder == "" || folder[|folder| - 1] == '/'
    requires segment != "" && '/' !in segment && '.' !in segment[1..]
    ensures ExtName(folder + segment) == ""
  {
    var path := folder + segment;
    LastCharacter(folder, segment);
    assert TrimSlashes(path) == path;
    SlashEnds(folder, segment);
    assert forall j :: 1 <= j < |segment| ==> segment[j] == segment[1..][j - 1];
    assert LastIndexOf(segment, '.') <= 0;
  }

  /** Different numbers give different names, whatever the file name is. */
  lemma SuffixInjective(filename: string, m: nat, n: nat)
    requires SuffixFilename(filename, m) == SuffixFilename(filename, n)
    ensures m == n
  {
    var extension := ExtName(filename);
    var head := filename[..|filename| - |extension|] + " (";
    var tail := ")" + extension;
    var s, t := SuffixFilename(filename, m), SuffixFilename(filename, n);
    assert s == head + Numeral(m) + tail && t == head + Numeral(n) + tail;
    assert Numeral(m) == s[|head|..|s| - |tail|] == t[|head|..|t| - |tail|] == Numeral(n);
    NumeralInjective(m, n);
  }

  /** A name with an extension keeps it, as documented; the one exception is the segment "..". */
  lemma SuffixKeepsExtension(stem: string, ext: string, n: nat)
    requires stem != [] && '/' !in stem && '/' !in ext && '.' !in ext && stem + "." + ext != ".."
    ensures SuffixFilename(stem + "." + ext, n) == stem + " (" + Numeral(n) + ")." + ext
  {
    var name := stem + "." + ext;
    assert name[|name| - 1] != '/';
    assert TrimSlashes(name) == name;
    assert LastIndexOf(name, '/') == -1;
    assert name[0..] == name;
    assert name[|stem|] == '.' && forall j :: |stem| < j < |name| ==> name[j] == ext[j - |stem| - 1];
    assert LastIndexOf(name, '.') == |stem|;
    assert ExtName(name) == name[|stem|..] == "." + ext;
    assert name[..|stem|] == stem;
    assert stem + " (" + Numeral(n) + ")" + ("." + ext) == stem + " (" + Numeral(n) + ")." + ext;
  }

  /** A name without a dot keeps its shape. */
  lemma SuffixWithoutExtension(stem: string, n: nat)
    requires '/' !in stem && '.' !in stem
    ensures SuffixFilename(stem, n) == stem + " (" + Numeral(n) + ")"
  {
    assert TrimSlashes(stem) == stem;
    assert LastIndexOf(stem, '/') == -1 && LastIndexOf(stem, '.') == -1;
    assert stem[0..] == stem;
  }

  // ---------------------------------------------------------------- nextAvailableName

  ghost predicate TakenUpTo(filename: string, taken: set<string>, n: nat) {
    forall i :: 1 <= i <= n ==> SuffixFilename(filename, i) in taken
  }

  /** The first `n` candidates are `n` different names, so a finite set cannot hold too many of them. */
  lemma {:induction false} Pigeonhole(filename: string, taken: set<string>, n: nat)
    requires TakenUpTo(filename, taken, n)
    ensures n <= |taken|
  {
    if n > 0 {
      var last := SuffixFilename(filename, n);
      forall i | 1 <= i <= n - 1 ensures SuffixFilename(filename, i) in taken - {last} {
        if SuffixFilename(filename, i) == last {
          SuffixInjective(filename, i, n);
        }
      }
      Pigeonhole(filename, taken - {last}, n - 1);
    }
  }

  predicate Free(filename: string, taken: set<string>, n: nat) {
    SuffixFilename(filename, n) !in taken
  }

  lemma OneMoreTaken(filename: string, taken: set<string>, n: nat)
    requires n >= 1 && TakenUpTo(filename, taken, n - 1) && !Free(filename, taken, n)
    ensures TakenUpTo(filename, taken, n) && n <= |taken|
  {
    Pigeonhole(filename, taken, n);
  }

  /** The number the search stops at, counting up from `n`. */
  function FirstFree(filename: string, taken: set<string>, n: nat): (k: nat)
    requires n >= 1 && TakenUpTo(filename, taken, n - 1)
    ensures n <= k && Free(filename, taken, k) && TakenUpTo(filename, taken, k - 1)
    decreases |taken| + 1 - n
  {
    if Free(filename, taken, n) then n
    else
      OneMoreTaken(filename, taken, n);
      FirstFree(filename, taken, n + 1)
  }

  /** The replacement name: the first candidate that is not taken. */
  function FreshName(filename: string, taken: set<string>): (name: string)
    ensures name !in taken
  {
    SuffixFilename(filename, FirstFree(filename, taken, 1))
  }

  /** The unbounded `for (n = 1; ; n++)` search: it stops within |taken| + 1 tries, returns the first
      free candidate, and reserves it. */
  method NextAvailableName(filename: string, taken: set<string>) returns (name: string, taken': set<string>)
    ensures name == FreshName(filename, taken) && taken' == taken + {name}
    ensures name !in taken
    ensures exists n :: 1 <= n <= |taken| + 1 && name == SuffixFilename(filename, n) && TakenUpTo(filename, taken, n - 1)
  {
    var n := 1;
    while true
      invariant 1 <= n && TakenUpTo(filename, taken, n - 1)
      invariant FirstFree(filename, taken, n) == FirstFree(filename, taken, 1)
      decreases |taken| + 1 - n
    {
      var candidate := SuffixFilename(filename, n);
      if candidate !in taken {
        Pigeonhole(filename, taken, n - 1);
        assert Free(filename, taken, n);
        return candidate, taken + {candidate};
      }
      OneMoreTaken(filename, taken, n);
      n := n + 1;
    }
  }
}
