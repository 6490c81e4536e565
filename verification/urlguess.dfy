/** A model of `guessUrlFromString`, which turns the positional argument into
    the URL to load.  Qt's tolerant URL parser and the file system are not
    modelled: `isValid(x)` stands for "QUrl(x, TolerantMode) is valid" and
    `fileExists(x)` for `QFile::exists(x)`.  The argument reaches this code
    through `QString::fromLatin1`, so every character is in the Latin-1 range. */
module UrlGuess {

  /** The URL the function returns: either the result of Qt's tolerant parse
      of a string, or a local-file URL built from a path. */
  datatype Url = Tolerant(text: string) | LocalFile(path: string)

  /** `QChar::isSpace` on the Latin-1 range: tab to carriage return, space,
      next-line (U+0085) and no-break space (U+00A0). */
  predicate IsSpace(c: char) {
    '\t' <= c <= '\r' || c == ' ' || c == '\U{85}' || c == '\U{A0}'
  }

  /** A letter of the class `[a-zA-Z]`. */
  predicate IsAsciiLetter(c: char) {
    'a' <= c <= 'z' || 'A' <= c <= 'Z'
  }

  /** The number of white-space characters at the start of `s`. */
  function LeadingSpaces(s: string): (n: nat)
    ensures n <= |s|
    ensures forall k :: 0 <= k < n ==> IsSpace(s[k])
    ensures n < |s| ==> !IsSpace(s[n])
  {
    if s == [] || !IsSpace(s[0]) then 0 else 1 + LeadingSpaces(s[1..])
  }

  /** The number of white-space characters at the end of `s`. */
  function TrailingSpaces(s: string): (n: nat)
    ensures n <= |s|
    ensures forall k :: |s| - n <= k < |s| ==> IsSpace(s[k])
    ensures n < |s| ==> !IsSpace(s[|s| - n - 1])
  {
    if s == [] || !IsSpace(s[|s| - 1]) then 0 else 1 + TrailingSpaces(s[..|s| - 1])
  }

  /** `QString::trimmed`: `s` without white space at either end.  The result
      is the slice of `s` that starts at its first non-space character, and
      everything outside that slice is white space. */
  function Trimmed(s: string): (t: string)
    ensures LeadingSpaces(s) + |t| <= |s|
    ensures t == s[LeadingSpaces(s)..LeadingSpaces(s) + |t|]
    ensures t != [] ==> !IsSpace(t[0]) && !IsSpace(t[|t| - 1])
    ensures forall k :: 0 <= k < |s| && !(LeadingSpaces(s) <= k < LeadingSpaces(s) + |t|) ==> IsSpace(s[k])
  {
    var i := LeadingSpaces(s);
    if i == |s| then []
    else
      var j := |s| - TrailingSpaces(s);
      assert i < j;
      s[i..j]
  }

  /** A string with no white space at either end is its own trimmed form. */
  lemma TrimmedKeepsUnpadded(s: string)
    requires s == [] || (!IsSpace(s[0]) && !IsSpace(s[|s| - 1]))
    ensures Trimmed(s) == s
  {
    assert LeadingSpaces(s) == 0 && TrailingSpaces(s) == 0;
    assert s[0..|s|] == s;
  }

  /** The number of `[a-zA-Z]` letters at the start of `s`. */
  function LeadingLetters(s: string): (n: nat)
    ensures n <= |s|
    ensures forall k :: 0 <= k < n ==> IsAsciiLetter(s[k])
    ensures n < |s| ==> !IsAsciiLetter(s[n])
  {
    if s == [] || !IsAsciiLetter(s[0]) then 0 else 1 + LeadingLetters(s[1..])
  }

  /** `^[a-zA-Z]+\:.*` matches `s` exactly. */
  predicate HasSchema(s: string) {
    var n := LeadingLetters(s);
    0 < n < |s| && s[n] == ':'
  }

  /** The regular expression's meaning: one or more letters, a colon, then
      anything. */
  lemma HasSchemaMeans(s: string)
    ensures HasSchema(s) <==>
      exists k :: 0 < k < |s| && s[k] == ':' && forall j :: 0 <= j < k ==> IsAsciiLetter(s[j])
  {
    var n := LeadingLetters(s);
    if k :| 0 < k < |s| && s[k] == ':' && forall j :: 0 <= j < k ==> IsAsciiLetter(s[j]) {
      assert !IsAsciiLetter(s[k]);
      assert n == k;
    }
    if HasSchema(s) {
      assert 0 < n < |s| && s[n] == ':' && forall j :: 0 <= j < n ==> IsAsciiLetter(s[j]);
    }
  }

  /** `QString::indexOf(c)`: the first index of `c` in `s`, or -1. */
  function IndexOf(s: string, c: char): (k: int)
    ensures -1 <= k < |s|
    ensures k == -1 <==> c !in s
    ensures 0 <= k ==> s[k] == c && c !in s[..k]
  {
    if s == [] then -1
    else if s[0] == c then 0
    else
      var k := IndexOf(s[1..], c);
      assert s == [s[0]] + s[1..];
      if k == -1 then -1
      else
        assert s[..k + 1] == [s[0]] + s[1..][..k];
        k + 1
  }

  /** The first occurrence of `c` is at `i` when `c` is at `i` and nowhere before. */
  lemma IndexOfAt(s: string, c: char, i: nat)
    requires i < |s| && s[i] == c && forall j :: 0 <= j < i ==> s[j] != c
    ensures IndexOf(s, c) == i
  {
    assert s[..i + 1][i] == c;
    assert forall j :: 0 <= j < i ==> s[..i][j] == s[j];
  }

  /** An upper-case letter of the Latin-1 range: A-Z and U+00C0 to U+00DE
      except the multiplication sign U+00D7. */
  predicate IsUpper(c: char) {
    'A' <= c <= 'Z' || ('\U{C0}' <= c <= '\U{DE}' && c != '\U{D7}')
  }

  /** `QChar::toLower` on the Latin-1 range: an upper-case letter becomes
      the letter 32 code points above it, which is not upper-case; any other
      character is left as it is. */
  function LowerChar(c: char): (l: char)
    ensures !IsUpper(l)
    ensures IsUpper(c) ==> l as int == c as int + 32
    ensures !IsUpper(c) ==> l == c
  {
    if IsUpper(c) then (c as int + 32) as char else c
  }

  /** `QString::toLower`, character by character. */
  function ToLower(s: string): (t: string)
    ensures |t| == |s| && forall k :: 0 <= k < |s| ==> t[k] == LowerChar(s[k])
  {
    seq(|s|, k requires 0 <= k < |s| => LowerChar(s[k]))
  }

  /** Lower-casing leaves no upper-case letter, changes only upper-case
      letters, and a second pass changes nothing. */
  lemma ToLowerIdempotent(s: string)
    ensures forall k :: 0 <= k < |s| ==> !IsUpper(ToLower(s)[k])
    ensures forall k :: 0 <= k < |s| && !IsUpper(s[k]) ==> ToLower(s)[k] == s[k]
    ensures ToLower(ToLower(s)) == ToLower(s)
  {
  }

  /** The scheme guessed for a string without one that contains a '.': the
      lower-cased text before the first '.' when that is "ftp", else "http". */
  function GuessedScheme(t: string): (scheme: string)
    requires IndexOf(t, '.') >= 0
    ensures scheme == "ftp" || scheme == "http"
  {
    var prefix := ToLower(t[..IndexOf(t, '.')]);
    if prefix == "ftp" then prefix else "http"
  }

  /** Only the two ASCII cases of a letter lower-case to it. */
  lemma LowerCharToAscii(c: char, x: char)
    requires 'a' <= x <= 'z'
    ensures LowerChar(c) == x <==> c == x || c as int == x as int - 32
  {
  }

  /** The scheme is "ftp" exactly when the text before the first '.' spells
      "ftp" in any mix of cases, so "FTP.x" gets "ftp". */
  lemma GuessedSchemeIsFtpIff(t: string)
    requires IndexOf(t, '.') >= 0
    ensures GuessedScheme(t) == "ftp" <==>
      && IndexOf(t, '.') == 3
      && (t[0] == 'f' || t[0] == 'F') && (t[1] == 't' || t[1] == 'T') && (t[2] == 'p' || t[2] == 'P')
  {
    var d := IndexOf(t, '.');
    var prefix := ToLower(t[..d]);
    if d == 3 {
      LowerCharToAscii(t[0], 'f');
      LowerCharToAscii(t[1], 't');
      LowerCharToAscii(t[2], 'p');
      assert prefix == "ftp" <==> prefix[0] == 'f' && prefix[1] == 't' && prefix[2] == 'p';
    } else {
      assert |prefix| != 3;
    }
  }

  /** `guessUrlFromString`: every URL it builds itself is valid, and a
      local-file URL names an existing file; only the fallback to the
      tolerant parser of the untrimmed argument can be invalid. */
  function GuessUrl(s: string, isValid: string -> bool, fileExists: string -> bool): (u: Url)
    ensures u.Tolerant? && u.text != s ==> isValid(u.text)
    ensures u.LocalFile? ==> fileExists(u.path) && u.path == Trimmed(s)
  {
    var t := Trimmed(s);
    var hasSchema := HasSchema(t);
    if hasSchema && isValid(t) then Tolerant(t)
    else if fileExists(t) then LocalFile(t)
    else if !hasSchema && IndexOf(t, '.') != -1 && isValid(GuessedScheme(t) + "://" + t) then
      Tolerant(GuessedScheme(t) + "://" + t)
    else Tolerant(s)
  }

  /** The four ways the guess can end, first match wins: a valid string with a
      scheme is kept, an existing file becomes a local-file URL, a string
      without scheme that has a '.' gets "ftp://" or "http://" put in front,
      and anything else goes to the tolerant parser untrimmed.  Only the last
      case can return an invalid URL. */
  lemma GuessUrlCases(s: string, isValid: string -> bool, fileExists: string -> bool)
    ensures var t := Trimmed(s); var u := GuessUrl(s, isValid, fileExists);
      && (HasSchema(t) && isValid(t) ==> u == Tolerant(t))
      && (!(HasSchema(t) && isValid(t)) && fileExists(t) ==> u == LocalFile(t))
      && (!HasSchema(t) && !fileExists(t) && '.' in t && isValid(GuessedScheme(t) + "://" + t) ==>
            u == Tolerant(GuessedScheme(t) + "://" + t))
      && ((!(HasSchema(t) && isValid(t)) && !fileExists(t)
           && (HasSchema(t) || '.' !in t || !isValid(GuessedScheme(t) + "://" + t))) ==> u == Tolerant(s))
      && (u.Tolerant? && u.text != s ==> isValid(u.text))
      && (u.LocalFile? ==> fileExists(u.path) && u.path == t)
  {
  }

  /** The short-URL rule: when the trimmed text has no scheme, names no file
      and has a '.', the guessed scheme and "://" go in front of the trimmed
      text, so white space around the argument is dropped. */
  lemma GuessShortUrl(s: string, isValid: string -> bool, fileExists: string -> bool)
    requires var t := Trimmed(s);
      !HasSchema(t) && !fileExists(t) && IndexOf(t, '.') >= 0 && isValid(GuessedScheme(t) + "://" + t)
    ensures GuessUrl(s, isValid, fileExists) == Tolerant(GuessedScheme(Trimmed(s)) + "://" + Trimmed(s))
  {
  }

  /** "http://example.com" has a scheme; when it is valid it is kept as it is. */
  lemma GuessKeepsQualifiedUrl(s: string, isValid: string -> bool, fileExists: string -> bool)
    requires s == "http://example.com" && isValid(s)
    ensures GuessUrl(s, isValid, fileExists) == Tolerant(s)
  {
    TrimmedKeepsUnpadded(s);
    assert forall k :: 0 <= k < 4 ==> IsAsciiLetter(s[k]);
    assert s[4] == ':';
  }

  /** An existing file without a scheme becomes a local-file URL. */
  lemma GuessFindsLocalFile(s: string, isValid: string -> bool, fileExists: string -> bool)
    requires s == "./local/page.html" && fileExists(s)
    ensures GuessUrl(s, isValid, fileExists) == LocalFile(s)
  {
    TrimmedKeepsUnpadded(s);
    assert !IsAsciiLetter(s[0]);
  }

  /** What the short-URL rule sees in a string whose first '.' is at `d`,
      that starts with `d` letters and has no white space at either end. */
  lemma ShortUrlFacts(s: string, d: nat)
    requires d < |s| && s[d] == '.' && !IsSpace(s[0]) && !IsSpace(s[|s| - 1])
    requires forall k :: 0 <= k < d ==> IsAsciiLetter(s[k])
    ensures Trimmed(s) == s && !HasSchema(s) && IndexOf(s, '.') == d
  {
    TrimmedKeepsUnpadded(s);
    IndexOfAt(s, '.', d);
  }

  /** "example.com/page", not a file, gets "http://". */
  lemma GuessAddsHttp(s: string, isValid: string -> bool, fileExists: string -> bool)
    requires s == "example.com/page" && !fileExists(s) && isValid("http" + "://" + s)
    ensures GuessUrl(s, isValid, fileExists) == Tolerant("http" + "://" + s)
  {
    ShortUrlFacts(s, 7);
    GuessedSchemeIsFtpIff(s);
    GuessShortUrl(s, isValid, fileExists);
  }

  /** "ftp.example.com", not a file, gets "ftp://"; so does "FTP.x", which
      gets the lower-case scheme and keeps its own spelling after it. */
  lemma GuessAddsFtp(s: string, isValid: string -> bool, fileExists: string -> bool)
    requires s == "ftp.example.com" || s == "FTP.x"
    requires !fileExists(s) && isValid("ftp" + "://" + s)
    ensures GuessUrl(s, isValid, fileExists) == Tolerant("ftp" + "://" + s)
  {
    ShortUrlFacts(s, 3);
    GuessedSchemeIsFtpIff(s);
    GuessShortUrl(s, isValid, fileExists);
  }
}
