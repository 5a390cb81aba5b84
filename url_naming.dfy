/**
 * How the image downloader names its output: from a URL it derives a per-host
 * directory name and a file name by plain string surgery,
 *   paths = url.replace('https://', '').split('/')
 *   dirname, filename = paths[0].replace('.', '_'), paths[-1]
 * The downloader module defines `download_image` three times (threads,
 * processes, asyncio) with exactly this derivation, so it is modelled once.
 */
module UrlNaming {

  const Scheme: string := "https://"

  /** True when `pat` occurs in `s` starting at index `i`. */
  predicate OccursAt(s: string, pat: string, i: nat)
  {
    i + |pat| <= |s| && s[i..i + |pat|] == pat
  }

  /**
   * Python's `s.replace(pat, sub)` for a non-empty `pat`: every occurrence,
   * found left to right without overlapping, is replaced.
   */
  function Replace(s: string, pat: string, sub: string): (r: string)
    requires pat != []
    ensures |sub| == |pat| ==> |r| == |s|
    ensures |sub| <= |pat| ==> |r| <= |s|
    decreases |s|
  {
    if |s| < |pat| then s
    else if s[..|pat|] == pat then sub + Replace(s[|pat|..], pat, sub)
    else [s[0]] + Replace(s[1..], pat, sub)
  }

  /** Replacing a pattern that does not occur leaves the string as it is. */
  lemma {:induction false} ReplaceAbsent(s: string, pat: string, sub: string)
    requires pat != []
    requires forall i: nat :: !OccursAt(s, pat, i)
    ensures Replace(s, pat, sub) == s
    decreases |s|
  {
    if |s| >= |pat| {
      assert !OccursAt(s, pat, 0);
      forall i: nat ensures !OccursAt(s[1..], pat, i) {
        assert !OccursAt(s, pat, i + 1);
        if i + |pat| <= |s| - 1 {
          assert s[1..][i..i + |pat|] == s[i + 1..i + 1 + |pat|];
        }
      }
      ReplaceAbsent(s[1..], pat, sub);
    }
  }

  /** A leading occurrence is replaced and scanning resumes right after it. */
  lemma ReplaceLeading(pat: string, rest: string, sub: string)
    requires pat != []
    ensures Replace(pat + rest, pat, sub) == sub + Replace(rest, pat, sub)
  {
    assert (pat + rest)[..|pat|] == pat;
    assert (pat + rest)[|pat|..] == rest;
  }

  /**
   * A prefix in which no occurrence starts is copied as it is, and the scan
   * goes on after it; with `ReplaceLeading` and `ReplaceAbsent` this fixes
   * every value of `Replace`.
   */
  lemma {:induction false} ReplaceSkip(a: string, t: string, pat: string, sub: string)
    requires pat != []
    requires forall i: nat :: i < |a| ==> !OccursAt(a + t, pat, i)
    ensures Replace(a + t, pat, sub) == a + Replace(t, pat, sub)
    decreases |a|
  {
    if a != [] {
      var s := a + t;
      assert !OccursAt(s, pat, 0);
      if |s| < |pat| {
        assert Replace(s, pat, sub) == s && Replace(t, pat, sub) == t;
      } else {
        assert s[..|pat|] != pat;
        assert s[1..] == a[1..] + t;
        forall i: nat | i < |a[1..]| ensures !OccursAt(a[1..] + t, pat, i) {
          assert !OccursAt(s, pat, i + 1);
          if i + |pat| <= |a[1..] + t| {
            assert (a[1..] + t)[i..i + |pat|] == s[i + 1..i + 1 + |pat|];
          }
        }
        ReplaceSkip(a[1..], t, pat, sub);
        assert Replace(s, pat, sub) == [s[0]] + Replace(a[1..] + t, pat, sub);
        assert a == [a[0]] + a[1..] && s[0] == a[0];
      }
    } else {
      assert a + t == t;
    }
  }

  /**
   * Replacing one character by another is a character-by-character map: the
   * length is kept, every `c` becomes `d` and every other character stays.
   */
  lemma {:induction false} ReplaceChar(s: string, c: char, d: char)
    ensures |Replace(s, [c], [d])| == |s|
    ensures forall i :: 0 <= i < |s| ==>
      Replace(s, [c], [d])[i] == if s[i] == c then d else s[i]
    decreases |s|
  {
    if |s| > 0 {
      ReplaceChar(s[1..], c, d);
      var r := Replace(s, [c], [d]);
      assert s[..1] == [s[0]];
      assert r == (if s[0] == c then [d] else [s[0]]) + Replace(s[1..], [c], [d]);
    }
  }

  /** Python's `s.split(sep)`: the pieces between separators, at least one. */
  function Split(s: string, sep: char): (parts: seq<string>)
    ensures |parts| >= 1
    ensures forall i :: 0 <= i < |parts| ==> sep !in parts[i]
    decreases |s|
  {
    if |s| == 0 then [""]
    else if s[0] == sep then [""] + Split(s[1..], sep)
    else
      var rest := Split(s[1..], sep);
      [[s[0]] + rest[0]] + rest[1..]
  }

  /** `sep.join(parts)`, the inverse of Split. */
  function Join(parts: seq<string>, sep: char): string
    requires |parts| >= 1
    decreases |parts|
  {
    if |parts| == 1 then parts[0] else parts[0] + [sep] + Join(parts[1..], sep)
  }

  /** Joining the pieces of a split gives the original string back. */
  lemma {:induction false} JoinSplit(s: string, sep: char)
    ensures Join(Split(s, sep), sep) == s
    decreases |s|
  {
    if |s| > 0 {
      JoinSplit(s[1..], sep);
      var rest := Split(s[1..], sep);
      if s[0] == sep {
        assert Split(s, sep)[1..] == rest;
      } else if |rest| == 1 {
        assert Split(s, sep) == [[s[0]] + rest[0]];
      } else {
        var parts := Split(s, sep);
        assert parts[1..] == rest[1..];
        assert Join(rest, sep) == rest[0] + [sep] + Join(rest[1..], sep);
      }
    }
  }

  /** A string without the separator is one piece. */
  lemma {:induction false} SplitNoSep(a: string, sep: char)
    requires sep !in a
    ensures Split(a, sep) == [a]
    decreases |a|
  {
    if |a| > 0 {
      assert sep !in a[1..];
      SplitNoSep(a[1..], sep);
      assert [a[0]] + a[1..] == a;
    }
  }

  /** A separator-free prefix glues onto the first piece of what follows it. */
  lemma {:induction false} SplitPrefix(a: string, t: string, sep: char)
    requires sep !in a
    ensures Split(a + t, sep) == [a + Split(t, sep)[0]] + Split(t, sep)[1..]
    decreases |a|
  {
    if |a| > 0 {
      assert (a + t)[0] == a[0];
      assert (a + t)[1..] == a[1..] + t;
      assert sep !in a[1..];
      SplitPrefix(a[1..], t, sep);
      var rest := Split(a[1..] + t, sep);
      assert rest[0] == a[1..] + Split(t, sep)[0];
      assert rest[1..] == Split(t, sep)[1..];
      assert [a[0]] + (a[1..] + Split(t, sep)[0]) == a + Split(t, sep)[0];
    } else {
      var parts := Split(t, sep);
      assert a + t == t && a + parts[0] == parts[0];
      assert [parts[0]] + parts[1..] == parts;
    }
  }

  /** Splitting a join of separator-free pieces gives the pieces back. */
  lemma {:induction false} SplitJoin(parts: seq<string>, sep: char)
    requires |parts| >= 1
    requires forall i :: 0 <= i < |parts| ==> sep !in parts[i]
    ensures Split(Join(parts, sep), sep) == parts
    decreases |parts|
  {
    if |parts| == 1 {
      SplitNoSep(parts[0], sep);
    } else {
      var tail := Join(parts[1..], sep);
      SplitJoin(parts[1..], sep);
      assert Split([sep] + tail, sep) == [""] + parts[1..] by {
        assert ([sep] + tail)[1..] == tail;
      }
      SplitPrefix(parts[0], [sep] + tail, sep);
      assert parts[0] + [sep] + tail == parts[0] + ([sep] + tail);
      assert parts[0] + "" == parts[0];
      assert [parts[0]] + parts[1..] == parts;
    }
  }

  /** Index of the first `sep` in `s`, or |s| when there is none. */
  function FirstSep(s: string, sep: char): (k: nat)
    ensures k <= |s| && sep !in s[..k]
    ensures k < |s| ==> s[k] == sep
    decreases |s|
  {
    if |s| == 0 || s[0] == sep then 0 else 1 + FirstSep(s[1..], sep)
  }

  /** Index just after the last `sep` in `s`, or 0 when there is none. */
  function AfterLastSep(s: string, sep: char): (k: nat)
    ensures k <= |s| && sep !in s[k..]
    ensures k > 0 ==> s[k - 1] == sep
    decreases |s|
  {
    if |s| == 0 then 0
    else if s[|s| - 1] == sep then |s|
    else AfterLastSep(s[..|s| - 1], sep)
  }

  /** The first piece of a split is everything before the first separator. */
  lemma {:induction false} FirstPiece(s: string, sep: char)
    ensures Split(s, sep)[0] == s[..FirstSep(s, sep)]
    decreases |s|
  {
    if |s| > 0 && s[0] != sep {
      FirstPiece(s[1..], sep);
      assert s[..FirstSep(s, sep)] == [s[0]] + s[1..][..FirstSep(s[1..], sep)];
    }
  }

  /** The last piece of a split is everything after the last separator. */
  lemma {:induction false} LastPiece(s: string, sep: char)
    ensures var parts := Split(s, sep); parts[|parts| - 1] == s[AfterLastSep(s, sep)..]
  {
    var k := AfterLastSep(s, sep);
    var parts := Split(s, sep);
    if k == 0 {
      SplitNoSep(s, sep);
    } else {
      var a, b := s[..k - 1], s[k..];
      assert s == a + [sep] + b;
      assert sep !in b;
      SplitNoSep(b, sep);
      SplitJoin2(a, b, sep);
    }
  }

  /** Splitting `a + sep + b` with a separator-free `b` ends in the piece `b`. */
  lemma {:induction false} SplitJoin2(a: string, b: string, sep: char)
    requires sep !in b
    ensures var parts := Split(a + [sep] + b, sep); |parts| >= 2 && parts[|parts| - 1] == b
    decreases |a|
  {
    if |a| == 0 {
      assert a + [sep] + b == [sep] + b;
      assert ([sep] + b)[1..] == b;
      SplitNoSep(b, sep);
    } else {
      var s := a + [sep] + b;
      assert s[0] == a[0];
      assert s[1..] == a[1..] + [sep] + b;
      SplitJoin2(a[1..], b, sep);
      var rest := Split(s[1..], sep);
      assert |rest| >= 2 && rest[|rest| - 1] == b;
      if a[0] != sep {
        var parts := Split(s, sep);
        assert parts == [[a[0]] + rest[0]] + rest[1..];
        assert parts[|parts| - 1] == rest[|rest| - 1];
      }
    }
  }

  /** The two names one download is stored under. */
  datatype Names = Names(dirname: string, filename: string)

  /** `url.replace('https://', '')`: every occurrence of the scheme is removed. */
  function StripScheme(url: string): (s: string)
    ensures |s| <= |url|
  {
    Replace(url, Scheme, "")
  }

  /**
   * The directory name is the first `/`-piece of the stripped URL with every
   * `.` turned into `_`; the file name is its last `/`-piece. Neither holds a
   * `/`, and the directory name holds no `.`.
   */
  function DeriveNames(url: string): (n: Names)
    ensures '.' !in n.dirname && '/' !in n.dirname && '/' !in n.filename
  {
    var paths := Split(StripScheme(url), '/');
    var host := paths[0];
    ReplaceChar(host, '.', '_');
    var dirname := Replace(host, ".", "_");
    assert forall i :: 0 <= i < |dirname| ==> dirname[i] != '.' && dirname[i] != '/';
    Names(dirname, paths[|paths| - 1])
  }

  /**
   * The names without Split: with `s` the stripped URL, the directory name is
   * `s` up to its first `/`, character by character with `.` mapped to `_`,
   * and the file name is `s` after its last `/`.
   */
  lemma DeriveNamesSpec(url: string)
    ensures var s, n := StripScheme(url), DeriveNames(url);
      var k := FirstSep(s, '/');
      |n.dirname| == k &&
      (forall i :: 0 <= i < k ==> n.dirname[i] == if s[i] == '.' then '_' else s[i]) &&
      n.filename == s[AfterLastSep(s, '/')..]
  {
    var s := StripScheme(url);
    FirstPiece(s, '/');
    LastPiece(s, '/');
    ReplaceChar(Split(s, '/')[0], '.', '_');
  }

  /**
   * Splitting never fails: a stripped URL without `/` is a single piece, so
   * the directory and the file are named after the same text.
   */
  lemma SingleSegment(url: string)
    requires '/' !in StripScheme(url)
    ensures DeriveNames(url) == Names(Replace(StripScheme(url), ".", "_"), StripScheme(url))
  {
    SplitNoSep(StripScheme(url), '/');
  }

  /** A string without `:` cannot contain the scheme. */
  lemma NoColonNoScheme(s: string)
    requires ':' !in s
    ensures forall i: nat :: !OccursAt(s, Scheme, i)
  {
    forall i: nat ensures !OccursAt(s, Scheme, i) {
      if i + |Scheme| <= |s| {
        assert s[i + 5] != ':';
        assert s[i..i + |Scheme|][5] != Scheme[5];
      }
    }
  }

  /** A URL that starts with the scheme and has no other `:` loses just the scheme. */
  lemma {:induction false} StripLeadingScheme(rest: string)
    requires ':' !in rest
    ensures StripScheme(Scheme + rest) == rest
  {
    ReplaceLeading(Scheme, rest, "");
    NoColonNoScheme(rest);
    ReplaceAbsent(rest, Scheme, "");
  }

  /**
   * The names of a URL `https://` + `rest`, where `rest` has no `:` and is the
   * pieces `parts` joined by `/`.
   */
  lemma {:induction false} NamesOfPieces(rest: string, parts: seq<string>)
    requires ':' !in rest
    requires |parts| >= 1 && rest == Join(parts, '/')
    requires forall i :: 0 <= i < |parts| ==> '/' !in parts[i]
    ensures DeriveNames(Scheme + rest) == Names(Replace(parts[0], ".", "_"), parts[|parts| - 1])
  {
    StripLeadingScheme(rest);
    SplitJoin(parts, '/');
  }

  /** The first URL of the downloader's list. */
  lemma ExampleImgur()
    ensures DeriveNames(Scheme + "i.imgur.com/vfiefI0.jpeg") == Names("i_imgur_com", "vfiefI0.jpeg")
  {
    var parts := ["i.imgur.com", "vfiefI0.jpeg"];
    assert Join(parts, '/') == "i.imgur.com/vfiefI0.jpeg";
    NamesOfPieces("i.imgur.com/vfiefI0.jpeg", parts);
    ImgurHost();
  }

  /** The host of the first URL, with its dots replaced. */
  lemma ImgurHost()
    ensures Replace("i.imgur.com", ".", "_") == "i_imgur_com"
  {
    ReplaceChar("i.imgur.com", '.', '_');
  }

  /** The example from the downloader's header comment. */
  lemma ExampleHeaderComment()
    ensures DeriveNames(Scheme + "example/images/image1.jpg") == Names("example", "image1.jpg")
  {
    var parts := ["example", "images", "image1.jpg"];
    assert Join(parts, '/') == "example/images/image1.jpg";
    NamesOfPieces("example/images/image1.jpg", parts);
    ExampleHost();
  }

  /** The host of the header comment's URL has no dot and keeps its name. */
  lemma ExampleHost()
    ensures Replace("example", ".", "_") == "example"
  {
    ReplaceChar("example", '.', '_');
  }
}
