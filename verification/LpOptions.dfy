/** The user's default printer, as `lpoptions` files record it (lpoptions.rs). */
module LpOptions {
  import opened Wrappers
  import opened Texts

  /** Unicode's White_Space property, which `split_whitespace` splits on. */
  predicate White(c: char) {
    var n := c as int;
    || 0x09 <= n <= 0x0D || n == 0x20 || n == 0x85 || n == 0xA0 || n == 0x1680
    || 0x2000 <= n <= 0x200A || n == 0x2028 || n == 0x2029 || n == 0x202F || n == 0x205F || n == 0x3000
  }

  /** That property's code points, one by one. */
  const WHITE_SPACE: set<int> := {
    0x09, 0x0A, 0x0B, 0x0C, 0x0D, 0x20, 0x85, 0xA0, 0x1680, 0x2000, 0x2001, 0x2002, 0x2003, 0x2004, 0x2005, 0x2006,
    0x2007, 0x2008, 0x2009, 0x200A, 0x2028, 0x2029, 0x202F, 0x205F, 0x3000 }

  lemma WhiteExactly(c: char)
    ensures White(c) <==> c as int in WHITE_SPACE
  {
  }

  function WithoutCr(line: string): string {
    if line != "" && line[|line| - 1] == '\r' then line[..|line| - 1] else line
  }

  /** `str::lines`: a carriage return goes with the newline behind it, and only then. */
  function Lines(s: string): seq<string>
    decreases |s|
  {
    if s == "" then []
    else
      match SplitOnce(s, '\n')
      case None => [s]
      case Some((line, rest)) =>
        SplitIs(s, '\n');
        [WithoutCr(line)] + Lines(rest)
  }

  function Word(s: string): string {
    if s == "" || White(s[0]) then "" else [s[0]] + Word(s[1..])
  }

  function FirstWord(s: string): Option<string> {
    if s == "" then None
    else if White(s[0]) then FirstWord(s[1..])
    else Some(Word(s))
  }

  function BeforeSlash(s: string): string {
    match SplitOnce(s, '/')
    case None => s
    case Some((left, _)) => left
  }

  const DEFAULT := "Default "

  /** The destination a line names, if it names one. */
  function Choice(line: string): Option<string> {
    if DEFAULT <= line then
      match FirstWord(line[|DEFAULT|..])
      case None => None
      case Some(word) => if BeforeSlash(word) == "" then None else Some(BeforeSlash(word))
    else None
  }

  /** The last line that names a destination decides. */
  function LastChoice(lines: seq<string>): Option<string> {
    if lines == [] then None
    else
      var later := LastChoice(lines[1..]);
      if later.Some? then later else Choice(lines[0])
  }

  function ParseDefault(contents: string): Option<string> {
    LastChoice(Lines(contents))
  }

  /** The user's file before the system's; a file that cannot be read is passed over. */
  function DefaultPrinterFrom(user: Option<string>, system: Option<string>): Option<string> {
    if user.Some? && ParseDefault(user.value).Some? then ParseDefault(user.value)
    else if system.Some? then ParseDefault(system.value)
    else None
  }

  // ---- One file after another ----

  lemma {:induction false} WordTrailing(s: string)
    ensures Word(s + ['\r']) == Word(s)
  {
    if s != "" && !White(s[0]) {
      WordTrailing(s[1..]);
      assert (s + ['\r'])[1..] == s[1..] + ['\r'];
    }
  }

  lemma {:induction false} FirstWordTrailing(s: string)
    ensures FirstWord(s + ['\r']) == FirstWord(s)
  {
    if s == "" {
      assert ("" + ['\r'])[1..] == "";
    } else {
      WordTrailing(s);
      FirstWordTrailing(s[1..]);
      assert (s + ['\r'])[1..] == s[1..] + ['\r'];
    }
  }

  lemma CrIrrelevant(line: string)
    ensures Choice(WithoutCr(line)) == Choice(line)
  {
    if line != "" && line[|line| - 1] == '\r' {
      var n := |line| - 1;
      var s := line[..n];
      assert DEFAULT[7] == ' ';
      if DEFAULT <= line {
        assert line[7] == ' ';
        assert line[|DEFAULT|..] == s[|DEFAULT|..] + ['\r'];
        FirstWordTrailing(s[|DEFAULT|..]);
      } else {
        assert s <= line;
        assert DEFAULT <= s ==> DEFAULT <= line;
      }
    }
  }

  /** For all texts: putting one file after another, the second decides if it names a destination,
      and the first otherwise. */
  lemma {:induction false} Concatenation(x: string, y: string)
    ensures ParseDefault(x + ['\n'] + y) == if ParseDefault(y).Some? then ParseDefault(y) else ParseDefault(x)
    decreases |x|
  {
    var all := x + ['\n'] + y;
    SplitIs(x, '\n');
    match SplitOnce(x, '\n')
    case None =>
      SplitJoined(x, '\n', y);
      assert Lines(all)[1..] == Lines(y);
      CrIrrelevant(x);
      if x != "" {
        var lines: seq<string> := [x];
        assert lines[1..] == [];
        assert LastChoice(lines) == Choice(x);
      }
    case Some((line, rest)) =>
      assert all == line + ['\n'] + (rest + ['\n'] + y);
      SplitJoined(line, '\n', rest + ['\n'] + y);
      Concatenation(rest, y);
      assert Lines(all)[1..] == Lines(rest + ['\n'] + y);
      assert Lines(x)[1..] == Lines(rest);
  }

  // ---- What is named ----

  lemma {:induction false} WordIs(s: string)
    ensures forall c | c in Word(s) :: !White(c)
    ensures Word(s) <= s
  {
    if s != "" && !White(s[0]) {
      WordIs(s[1..]);
      assert s == [s[0]] + s[1..];
    }
  }

  lemma {:induction false} FirstWordIs(s: string)
    ensures FirstWord(s).Some? ==> FirstWord(s).value != "" && forall c | c in FirstWord(s).value :: !White(c)
    ensures FirstWord(s).None? <==> forall c | c in s :: White(c)
  {
    if s != "" {
      assert s[0] in s;
      if White(s[0]) {
        FirstWordIs(s[1..]);
        assert s == [s[0]] + s[1..];
      } else {
        WordIs(s);
      }
    }
  }

  lemma {:induction false} ChoiceIsClean(lines: seq<string>)
    ensures LastChoice(lines).Some? ==>
              var dest := LastChoice(lines).value;
              dest != "" && '/' !in dest && forall c | c in dest :: !White(c)
  {
    if lines != [] {
      ChoiceIsClean(lines[1..]);
      if DEFAULT <= lines[0] && FirstWord(lines[0][|DEFAULT|..]).Some? {
        var word := FirstWord(lines[0][|DEFAULT|..]).value;
        FirstWordIs(lines[0][|DEFAULT|..]);
        SplitIs(word, '/');
        assert forall c | c in BeforeSlash(word) :: c in word;
      }
    }
  }

  /** A destination is never empty and never holds a slash or white space. */
  lemma DestinationIsClean(contents: string)
    ensures ParseDefault(contents).Some? ==>
              var dest := ParseDefault(contents).value;
              dest != "" && '/' !in dest && forall c | c in dest :: !White(c)
  {
    ChoiceIsClean(Lines(contents));
  }

  predicate Destination(dest: string) {
    dest != "" && '/' !in dest && forall c | c in dest :: !White(c)
  }

  // ---- Which lines name what ----

  /** The text names the destination: after the word Default, one space and any white space comes the
      name, up to a slash, white space or the end. */
  ghost predicate Names(line: string, dest: string) {
    exists gap, tail :: NamesWith(line, gap, dest, tail)
  }

  predicate NamesWith(line: string, gap: string, dest: string, tail: string) {
    && line == "Default " + gap + dest + tail
    && (forall c | c in gap :: White(c))
    && Destination(dest)
    && (tail == "" || tail[0] == '/' || White(tail[0]))
  }

  lemma {:induction false} FirstWordAfter(gap: string, s: string)
    requires (forall c | c in gap :: White(c)) && s != "" && !White(s[0])
    ensures FirstWord(gap + s) == Some(Word(s))
  {
    if gap == "" {
      assert gap + s == s;
    } else {
      assert (gap + s)[1..] == gap[1..] + s;
      FirstWordAfter(gap[1..], s);
    }
  }

  lemma {:induction false} WordEnds(s: string)
    ensures Word(s) == s || (|Word(s)| < |s| && White(s[|Word(s)|]))
  {
    if s != "" && !White(s[0]) { WordEnds(s[1..]); }
  }

  lemma {:induction false} BeforeSlashOf(dest: string, rest: string)
    requires '/' !in dest && (rest == "" || rest[0] == '/')
    ensures BeforeSlash(dest + rest) == dest
  {
    if rest == "" {
      assert dest + rest == dest;
      SplitIs(dest, '/');
    } else {
      SplitJoined(dest, '/', rest[1..]);
      assert dest + rest == dest + ['/'] + rest[1..];
    }
  }

  /** The first word of a text that goes on with `tail` is all of `dest` and some of what follows. */
  lemma {:induction false} WordGoesOn(dest: string, tail: string)
    requires forall c | c in dest :: !White(c)
    ensures Word(dest + tail) == dest + Word(tail)
  {
    if dest == "" {
      assert dest + tail == tail;
    } else {
      assert (dest + tail)[1..] == dest[1..] + tail;
      WordGoesOn(dest[1..], tail);
    }
  }

  lemma NamedIsChosen(line: string, gap: string, dest: string, tail: string)
    requires NamesWith(line, gap, dest, tail)
    ensures Choice(line) == Some(dest)
  {
    assert dest[0] in dest;
    assert line[|DEFAULT|..] == gap + (dest + tail);
    FirstWordAfter(gap, dest + tail);
    WordGoesOn(dest, tail);
    WordIs(tail);
    BeforeSlashOf(dest, Word(tail));
  }

  /** White space in front of the first word. */
  lemma {:induction false} GapOf(s: string) returns (gap: string, rest: string)
    requires FirstWord(s).Some?
    ensures s == gap + rest && (forall c | c in gap :: White(c)) && rest != "" && !White(rest[0])
    ensures FirstWord(s) == Some(Word(rest))
  {
    if White(s[0]) {
      gap, rest := GapOf(s[1..]);
      gap := [s[0]] + gap;
    } else {
      gap, rest := "", s;
    }
  }

  lemma TailOf(rest: string, dest: string)
    requires rest != "" && !White(rest[0]) && BeforeSlash(Word(rest)) == dest != ""
    ensures dest <= rest && Destination(dest)
    ensures var tail := rest[|dest|..]; tail == "" || tail[0] == '/' || White(tail[0])
  {
    var word := Word(rest);
    WordIs(rest);
    WordEnds(rest);
    SplitIs(word, '/');
    assert dest <= word;
    assert forall c | c in dest :: c in word;
    if |dest| < |word| { assert rest[|dest|] == word[|dest|] == '/'; }
  }

  lemma ChosenIsNamed(line: string, dest: string)
    requires Choice(line) == Some(dest)
    ensures Names(line, dest)
  {
    hide Word, FirstWord, BeforeSlash, White, Destination;
    var s := line[|DEFAULT|..];
    var gap, rest := GapOf(s);
    TailOf(rest, dest);
    var tail := rest[|dest|..];
    assert line == DEFAULT + s && rest == dest + tail;
    assert DEFAULT + gap + dest + tail == DEFAULT + (gap + (dest + tail));
    assert NamesWith(line, gap, dest, tail);
  }

  /** A single line names a destination exactly when its text does, and any other line names none. With
      Concatenation that settles every file. */
  lemma LineNamesExactly(line: string, dest: string)
    requires '\n' !in line
    ensures ParseDefault(line) == Some(dest) <==> Names(line, dest)
  {
    SplitIs(line, '\n');
    if line == "" {
      assert forall gap, tail :: !NamesWith(line, gap, dest, tail);
    } else {
      var lines: seq<string> := [line];
      assert Lines(line) == lines && lines[1..] == [];
      assert LastChoice(lines) == Choice(line);
      if Choice(line) == Some(dest) { ChosenIsNamed(line, dest); }
      if Names(line, dest) {
        var gap, tail :| NamesWith(line, gap, dest, tail);
        NamedIsChosen(line, gap, dest, tail);
      }
    }
  }

  /** Writing a default down and reading it back gives its destination, with or without an instance
      and options. */
  lemma ReadsBack(dest: string, instance: string, options: string)
    requires Destination(dest) && (forall c | c in instance :: !White(c)) && '\n' !in options
    requires options == "" || White(options[0])
    ensures ParseDefault(DEFAULT + dest + options) == Some(dest)
    ensures ParseDefault(DEFAULT + dest + ['/'] + instance + options) == Some(dest)
  {
    assert White('\n') && forall c | c in DEFAULT :: c != '\n';
    LineReadsBack(dest, options);
    LineReadsBack(dest, ['/'] + instance + options);
    assert DEFAULT + dest + ['/'] + instance + options == DEFAULT + dest + (['/'] + instance + options);
  }

  lemma LineReadsBack(dest: string, tail: string)
    requires Destination(dest) && '\n' !in tail && (tail == "" || tail[0] == '/' || White(tail[0]))
    ensures ParseDefault(DEFAULT + dest + tail) == Some(dest)
  {
    var line := DEFAULT + dest + tail;
    assert White('\n') && forall c | c in DEFAULT :: c != '\n';
    assert line == "Default " + "" + dest + tail;
    assert NamesWith(line, "", dest, tail);
    LineNamesExactly(line, dest);
  }

  // ---- One file before the other ----

  /** The system's file is of no account exactly when the user's names a destination. */
  lemma UserWinsExactly(user: Option<string>)
    ensures (forall s, t :: DefaultPrinterFrom(user, s) == DefaultPrinterFrom(user, t)) <==>
            (user.Some? && ParseDefault(user.value).Some?)
  {
    if !(user.Some? && ParseDefault(user.value).Some?) {
      ReadsBack("a", "", "");
      assert DEFAULT + "a" + "" == DEFAULT + "a";
      assert DefaultPrinterFrom(user, None) != DefaultPrinterFrom(user, Some(DEFAULT + "a"));
    }
  }

  /** A file that names a destination decides, the user's before the system's; with neither there is none. */
  lemma FilesInOrder(user: Option<string>, system: Option<string>)
    ensures var dest := DefaultPrinterFrom(user, system);
            && (user.Some? && ParseDefault(user.value).Some? ==> dest == ParseDefault(user.value))
            && (user.None? || ParseDefault(user.value).None? ==>
                  dest == if system.Some? then ParseDefault(system.value) else None)
  {
  }
}
