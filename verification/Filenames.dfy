/** The cleaning of an uploaded file's name, which is kept for display only. */
module Filenames {
  import opened Base

  const MAX_FILENAME_LENGTH: nat := 255

  predicate IsSeparator(ch: char) {
    ch == '/' || ch == '\\'
  }

  /** Control characters, and those that some file system reserves. */
  predicate IsUnsafe(ch: char) {
    ch < ' ' || ch == '\U{7F}' || ch in "\\/:*?\"<>|"
  }

  predicate IsPadding(ch: char) {
    ch == ' ' || ch == '.'
  }

  /** What follows the last separator, of either kind. */
  function LastComponent(s: string): string {
    if s == [] || IsSeparator(Last(s)) then "" else LastComponent(s[..|s| - 1]) + [Last(s)]
  }

  function Replaced(s: string): string {
    seq(|s|, i requires 0 <= i < |s| => if IsUnsafe(s[i]) then '_' else s[i])
  }

  function StripStart(s: string): (r: string)
    ensures r != "" ==> !IsPadding(r[0])
    ensures r <= s || |r| < |s|
    ensures r != "" ==> Last(r) == Last(s)
    ensures forall ch | ch in r :: ch in s
  {
    if s != "" && IsPadding(s[0]) then StripStart(s[1..]) else s
  }

  function StripEnd(s: string): (r: string)
    ensures r <= s && (r != "" ==> !IsPadding(Last(r)))
    ensures r == s <==> s == "" || !IsPadding(Last(s))
  {
    if s != "" && IsPadding(Last(s)) then StripEnd(s[..|s| - 1]) else s
  }

  function Cut(s: string): string {
    if |s| > MAX_FILENAME_LENGTH then s[..MAX_FILENAME_LENGTH] else s
  }

  function SafeComponent(replaced: string): string {
    var name := Cut(StripEnd(StripStart(replaced)));
    if name == "" then "attachment" else name
  }

  function SafeFilename(raw: string): string {
    SafeComponent(Replaced(LastComponent(raw)))
  }

  /** A name that no cleaning is needed for, except perhaps at its end. */
  predicate IsSafeName(s: string) {
    1 <= |s| <= MAX_FILENAME_LENGTH && !IsPadding(s[0]) && forall ch | ch in s :: !IsUnsafe(ch)
  }

  lemma {:induction false} LastComponentOfOne(s: string)
    requires forall ch | ch in s :: !IsSeparator(ch)
    ensures LastComponent(s) == s
  {
    if s != "" {
      LastComponentOfOne(s[..|s| - 1]);
    }
  }

  /** Whatever the client sent: the stored name has no path, no control or reserved character, does not
      start with a dot or a space, and is neither empty nor longer than its column. */
  lemma SafeFilenameIsSafe(raw: string)
    ensures IsSafeName(SafeFilename(raw))
  {
    var replaced := Replaced(LastComponent(raw));
    assert forall ch | ch in replaced :: !IsUnsafe(ch);
  }

  /** A name is kept as it is exactly if it is safe and does not end in a dot or a space. */
  lemma KeptExactly(raw: string)
    ensures SafeFilename(raw) == raw <==> IsSafeName(raw) && !IsPadding(Last(raw))
  {
    if SafeFilename(raw) == raw {
      SafeFilenameIsSafe(raw);
    }
    if IsSafeName(raw) {
      LastComponentOfOne(raw);
      assert Replaced(raw) == raw && StripStart(raw) == raw;
      assert Last("attachment") == 't';
    }
  }

  /** Cleaning a cleaned name changes it exactly if the cut left a dot or a space at its end. */
  lemma CleanedAgainExactly(raw: string)
    ensures SafeFilename(SafeFilename(raw)) == SafeFilename(raw) <==> !IsPadding(Last(SafeFilename(raw)))
  {
    SafeFilenameIsSafe(raw);
    KeptExactly(SafeFilename(raw));
  }

  lemma {:induction false} LastComponentDropsPath(path: string, separator: char, name: string)
    requires IsSeparator(separator) && forall ch | ch in name :: !IsSeparator(ch)
    ensures LastComponent(path + [separator] + name) == name
  {
    if name == "" {
      assert path + [separator] + name == path + [separator];
    } else {
      var n := |name| - 1;
      LastComponentDropsPath(path, separator, name[..n]);
      assert (path + [separator] + name)[..|path| + 1 + n] == path + [separator] + name[..n];
      assert name == name[..n] + [name[n]];
    }
  }

  /** Whatever path is in front, with either separator, does not matter. */
  lemma PathIsDropped(path: string, name: string)
    requires forall ch | ch in name :: ch !in "/\\"
    ensures SafeFilename(path + "/" + name) == SafeFilename(name) == SafeFilename(path + "\\" + name)
  {
    LastComponentDropsPath(path, '/', name);
    LastComponentDropsPath(path, '\\', name);
    LastComponentOfOne(name);
  }

  lemma {:induction false} StripEndDropsOne(s: string, p: char)
    requires IsPadding(p)
    ensures StripEnd(s + [p]) == StripEnd(s)
  {
    assert (s + [p])[..|s|] == s && Last(s + [p]) == p;
  }

  lemma {:induction false} StripStartOfAppend(s: string, p: char)
    requires IsPadding(p)
    ensures StripStart(s + [p]) == (if StripStart(s) == "" then "" else StripStart(s) + [p])
    decreases |s|
  {
    if s == "" {
      assert s + [p] == [p] && [p][1..] == "";
    } else if IsPadding(s[0]) {
      StripStartOfAppend(s[1..], p);
      assert (s + [p])[1..] == s[1..] + [p];
    }
  }

  lemma StripStartDropsOne(p: char, s: string)
    requires IsPadding(p)
    ensures StripStart([p] + s) == StripStart(s)
  {
    assert ([p] + s)[1..] == s;
  }

  lemma PaddedIsReplaced(p: char, s: string)
    requires IsPadding(p)
    ensures Replaced([p] + s) == [p] + Replaced(s) && Replaced(s + [p]) == Replaced(s) + [p]
  {
  }

  lemma PlainOfOne(name: string)
    requires forall ch | ch in name :: ch !in "/\\"
    ensures SafeFilename(name) == SafeComponent(Replaced(name))
  {
    LastComponentOfOne(name);
  }

  lemma FrontPaddingIsDropped(name: string, p: char)
    requires p in " ." && forall ch | ch in name :: ch !in "/\\"
    ensures SafeFilename([p] + name) == SafeFilename(name)
  {
    assert IsPadding(p);
    PlainOfOne(name);
    PlainOfOne([p] + name);
    PaddedIsReplaced(p, name);
    StripStartDropsOne(p, Replaced(name));
  }

  lemma EndPaddingIsDropped(name: string, p: char)
    requires p in " ." && forall ch | ch in name :: ch !in "/\\"
    ensures SafeFilename(name + [p]) == SafeFilename(name)
  {
    assert IsPadding(p);
    PlainOfOne(name);
    PlainOfOne(name + [p]);
    PaddedIsReplaced(p, name);
    StripStartOfAppend(Replaced(name), p);
    if StripStart(Replaced(name)) != "" {
      StripEndDropsOne(StripStart(Replaced(name)), p);
    }
  }

  /** Dots and spaces at either end do not matter. */
  lemma PaddingIsDropped(name: string, p: char)
    requires p in " ." && forall ch | ch in name :: ch !in "/\\"
    ensures SafeFilename([p] + name) == SafeFilename(name) == SafeFilename(name + [p])
  {
    FrontPaddingIsDropped(name, p);
    EndPaddingIsDropped(name, p);
  }

  /** Of a name without path and padding each reserved or control character becomes an underscore and each
      other stays, up to the width of the column; nothing at all becomes a generic name. */
  lemma CleaningReplaces(name: string)
    requires forall ch | ch in name :: ch !in "/\\"
    requires name != "" ==> name[0] !in " ." && Last(name) !in " ."
    ensures name == "" ==> SafeFilename(name) == "attachment"
    ensures name != "" ==>
              var clean := SafeFilename(name);
              && |clean| == (if |name| > 255 then 255 else |name|)
              && forall i | 0 <= i < |clean| ::
                   clean[i] == if name[i] < ' ' || name[i] == '\U{7F}' || name[i] in ":*?\"<>|" then '_' else name[i]
  {
    LastComponentOfOne(name);
    if name != "" {
      var clean := Replaced(name);
      assert StripStart(clean) == clean && StripEnd(clean) == clean;
      assert clean != "";
      forall i | 0 <= i < |name| ensures name[i] in name {
      }
    }
  }

  /** Only the cut can leave one. */
  lemma OnlyTheCutLeavesPadding(raw: string)
    requires SafeFilename(raw) != "" && IsPadding(Last(SafeFilename(raw)))
    ensures |SafeFilename(raw)| == MAX_FILENAME_LENGTH
  {
    assert Last("attachment") == 't';
  }
}
