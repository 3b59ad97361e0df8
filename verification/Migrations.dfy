/** Versioned schema migrations: a directory of files against the recorded versions of a database. */
module Migrations {
  import opened Logs

  // Below, `== true` makes the verifier pass a predicate on as one fact instead of taking it apart.

  /** A repeatable file has no version. */
  datatype Migration = Migration(version: Option<nat>, name: string, filename: string, sql: string, checksum: string)

  // ---- checksums ---------------------------------------------------------------------

  /** `sql.replace("\r\n", "\n")` */
  function Unix(text: string): string
    decreases |text|
  {
    if |text| == 0 then []
    else if |text| > 1 && text[0] == '\r' && text[1] == '\n' then ['\n'] + Unix(text[2..])
    else [text[0]] + Unix(text[1..])
  }

  function Checksum(hash: string -> string, sql: string): string {
    hash(Unix(sql))
  }

  /** A file as an editor with CRLF line ends would save it. */
  function Dos(text: string): string {
    if |text| == 0 then []
    else if text[0] == '\n' then ['\r', '\n'] + Dos(text[1..])
    else [text[0]] + Dos(text[1..])
  }

  lemma {:induction false} UnixOfDos(text: string)
    requires '\r' !in text
    ensures Unix(Dos(text)) == text
  {
    if |text| > 0 {
      UnixOfDos(text[1..]);
      assert Dos(text)[if text[0] == '\n' then 2 else 1..] == Dos(text[1..]);
    }
  }

  /** Saving a file with other line ends is not drift. */
  lemma LineEndsAreNotDrift(hash: string -> string, text: string)
    requires '\r' !in text
    ensures Checksum(hash, Dos(text)) == Checksum(hash, text)
  {
    UnixOfDos(text);
    UnixOfPlain(text);
  }

  lemma {:induction false} UnixOfPlain(text: string)
    requires '\r' !in text
    ensures Unix(text) == text
  {
    UnixKeeps(text);
  }

  /** A text without CRLF is left as it is. */
  lemma {:induction false} UnixKeeps(text: string)
    requires forall i :: 0 <= i < |text| - 1 ==> !(text[i] == '\r' && text[i + 1] == '\n')
    ensures Unix(text) == text
  {
    if |text| > 0 {
      assert |text| > 1 ==> !(text[0] == '\r' && text[0 + 1] == '\n');
      UnixKeeps(text[1..]);
    }
  }

  /** And every CRLF, wherever it stands, becomes one LF. */
  lemma {:induction false} UnixReplaces(before: string, after: string)
    ensures Unix(before + ['\r', '\n'] + after) == Unix(before) + ['\n'] + Unix(after)
    decreases |before|
  {
    var all := before + ['\r', '\n'] + after;
    if |before| == 0 {
      assert all[2..] == after;
    } else if |before| > 1 && before[0] == '\r' && before[1] == '\n' {
      assert all[2..] == before[2..] + ['\r', '\n'] + after;
      UnixReplaces(before[2..], after);
    } else {
      assert all[1..] == before[1..] + ['\r', '\n'] + after;
      assert |before| == 1 ==> all[1] == '\r';
      UnixReplaces(before[1..], after);
    }
  }

  /** The hash tells the two texts apart, line ends aside. */
  ghost predicate Distinguishes(hash: string -> string, a: string, b: string) {
    hash(Unix(a)) == hash(Unix(b)) ==> Unix(a) == Unix(b)
  }

  /** Texts have the same checksum exactly if they agree up to CRLF; without CR, exactly if they are equal. */
  lemma ChecksumsTell(hash: string -> string, a: string, b: string)
    requires Distinguishes(hash, a, b)
    ensures Checksum(hash, a) == Checksum(hash, b) <==> Unix(a) == Unix(b)
    ensures '\r' !in a && '\r' !in b ==> (Checksum(hash, a) == Checksum(hash, b) <==> a == b)
  {
    if '\r' !in a && '\r' !in b {
      UnixOfPlain(a);
      UnixOfPlain(b);
    }
  }

  // ---- the directory ---------------------------------------------------------------------

  /** What a file name says. */
  datatype Name = Versioned(number: nat, name: string) | Repeatable(name: string) | Other

  /** What `\d` takes, with the values `int` gives: the ASCII digits and those of other scripts, but neither
      the underscore nor the R that the patterns go on with. */
  ghost predicate Decimal(digit: char -> Option<nat>) {
    && (forall c :: '0' <= c <= '9' ==> digit(c).Some? && digit(c).value == (c as int) - ('0' as int))
    && digit('_') == None && digit('R') == None
  }

  predicate Alphanumeric(c: char) {
    '0' <= c <= '9' || 'a' <= c <= 'z' || 'A' <= c <= 'Z'
  }

  /** `[A-Za-z0-9][A-Za-z0-9_\-]*` */
  predicate ValidName(s: string) {
    |s| > 0 && Alphanumeric(s[0]) && forall i :: 0 <= i < |s| ==> Alphanumeric(s[i]) || s[i] == '_' || s[i] == '-'
  }

  predicate AllDigits(digit: char -> Option<nat>, s: string) {
    forall i :: 0 <= i < |s| ==> digit(s[i]).Some?
  }

  /** `int` of a run of digits, leading zeros and all. */
  function Number(digit: char -> Option<nat>, s: string): nat
    requires AllDigits(digit, s)
  {
    if s == "" then 0 else Number(digit, s[..|s| - 1]) * 10 + digit(s[|s| - 1]).value
  }

  /** The decimal numeral of `n`. */
  function Numeral(n: nat): string {
    (if n < 10 then [] else Numeral(n / 10)) + [('0' as int + n % 10) as char]
  }

  function Zeros(k: nat): string {
    if k == 0 then [] else Zeros(k - 1) + ['0']
  }

  lemma DigitOf(digit: char -> Option<nat>, d: nat)
    requires Decimal(digit) && d < 10
    ensures digit(('0' as int + d) as char) == Some(d)
  {
    var c := ('0' as int + d) as char;
    assert '0' <= c <= '9';
  }

  lemma AppendDigit(digit: char -> Option<nat>, s: string, c: char)
    requires AllDigits(digit, s) && digit(c).Some?
    ensures AllDigits(digit, s + [c]) && Number(digit, s + [c]) == Number(digit, s) * 10 + digit(c).value
  {
    assert (s + [c])[..|s|] == s;
  }

  lemma {:induction false} ZerosAreNothing(digit: char -> Option<nat>, k: nat)
    requires Decimal(digit)
    ensures AllDigits(digit, Zeros(k)) && Number(digit, Zeros(k)) == 0
  {
    if k > 0 {
      ZerosAreNothing(digit, k - 1);
      DigitOf(digit, 0);
      AppendDigit(digit, Zeros(k - 1), '0');
    }
  }

  /** The decimal numeral of a number is read as that number, leading zeros included. */
  lemma {:induction false} NumeralsAreRead(digit: char -> Option<nat>, k: nat, n: nat)
    requires Decimal(digit)
    ensures AllDigits(digit, Zeros(k) + Numeral(n)) && Number(digit, Zeros(k) + Numeral(n)) == n
  {
    var last := [('0' as int + n % 10) as char];
    var front := Zeros(k) + if n < 10 then [] else Numeral(n / 10);
    if n < 10 {
      ZerosAreNothing(digit, k);
      assert front == Zeros(k);
    } else {
      NumeralsAreRead(digit, k, n / 10);
    }
    DigitOf(digit, n % 10);
    assert Zeros(k) + Numeral(n) == front + last;
    AppendDigit(digit, front, last[0]);
  }

  /** How many digits a name starts with. */
  function Leading(digit: char -> Option<nat>, s: string): (n: nat)
    ensures n <= |s| && AllDigits(digit, s[..n]) && (n < |s| ==> digit(s[n]) == None)
  {
    if s == "" || digit(s[0]) == None then 0
    else
      var n := 1 + Leading(digit, s[1..]);
      assert s[..n] == [s[0]] + s[1..][..n - 1];
      n
  }

  function VersionedName(digit: char -> Option<nat>, stem: string): Name {
    var d := Leading(digit, stem);
    if 0 < d < |stem| && stem[d] == '_' && ValidName(stem[d + 1..]) then
      Versioned(Number(digit, stem[..d]), stem[d + 1..])
    else
      Other
  }

  function RepeatableName(stem: string): Name {
    if |stem| > 3 && stem[..3] == "R__" && ValidName(stem[3..]) then Repeatable(stem[3..]) else Other
  }

  /** The two patterns, tried in turn. */
  function NameOf(digit: char -> Option<nat>, filename: string): Name {
    if |filename| < 4 || filename[|filename| - 4..] != ".sql" then Other
    else
      var stem := filename[..|filename| - 4];
      if VersionedName(digit, stem).Versioned? then VersionedName(digit, stem) else RepeatableName(stem)
  }

  /** The ASCII codes of the digits, the upper-case and the lower-case letters. */
  ghost predicate LetterOrDigit(c: char) {
    48 <= c as int <= 57 || 65 <= c as int <= 90 || 97 <= c as int <= 122
  }

  /** A word of letters, digits, underscores (95) and hyphens (45) that starts with a letter or a digit. */
  ghost predicate Word(s: string) {
    s != "" && LetterOrDigit(s[0])
    && forall i :: 0 <= i < |s| ==> LetterOrDigit(s[i]) || s[i] as int == 95 || s[i] as int == 45
  }

  /** `NNN_name`, before `.sql` */
  ghost predicate VersionedStem(digit: char -> Option<nat>, stem: string, digits: string, name: string) {
    digits != "" && AllDigits(digit, digits) && Word(name) && stem == digits + "_" + name
  }

  /** `R__name`, before `.sql` */
  ghost predicate RepeatableStem(stem: string, name: string) {
    Word(name) && stem == "R__" + name
  }

  lemma WordsAre(s: string)
    ensures Word(s) <==> ValidName(s)
  {
  }

  lemma Parts(a: string, b: string)
    ensures (a + b)[..|a|] == a && (a + b)[|a|..] == b
  {
  }

  lemma {:induction false} LeadingIs(digit: char -> Option<nat>, digits: string, rest: string)
    requires AllDigits(digit, digits) && rest != "" && digit(rest[0]) == None
    ensures Leading(digit, digits + rest) == |digits|
  {
    if digits == "" {
      assert digits + rest == rest;
    } else {
      assert (digits + rest)[1..] == digits[1..] + rest;
      assert digit(digits[0]).Some?;
      LeadingIs(digit, digits[1..], rest);
    }
  }

  lemma VersionedIsRead(digit: char -> Option<nat>, stem: string, digits: string, name: string)
    requires Decimal(digit) && VersionedStem(digit, stem, digits, name)
    ensures VersionedName(digit, stem) == Versioned(Number(digit, digits), name)
  {
    var rest := "_" + name;
    WordsAre(name);
    assert stem == digits + rest;
    LeadingIs(digit, digits, rest);
    Parts(digits, rest);
    Parts("_", name);
    assert stem[|digits| + 1..] == rest[1..];
  }

  lemma VersionedIsWritten(digit: char -> Option<nat>, stem: string, name: string) returns (digits: string)
    requires VersionedName(digit, stem).Versioned?
    ensures VersionedStem(digit, stem, digits, VersionedName(digit, stem).name)
    ensures Number(digit, digits) == VersionedName(digit, stem).number
  {
    digits := stem[..Leading(digit, stem)];
    WordsAre(stem[|digits| + 1..]);
    assert stem == digits + [stem[|digits|]] + stem[|digits| + 1..];
  }

  lemma RepeatableIsRead(stem: string, name: string)
    ensures RepeatableName(stem) == Repeatable(name) <==> RepeatableStem(stem, name)
  {
    Parts("R__", name);
    WordsAre(name);
    if |stem| > 3 {
      assert stem == stem[..3] + stem[3..];
    }
  }

  lemma RepeatableIsNotVersioned(digit: char -> Option<nat>, stem: string)
    requires Decimal(digit) && RepeatableName(stem).Repeatable?
    ensures VersionedName(digit, stem) == Other
  {
    assert stem[0] == stem[..3][0] == 'R';
  }

  /** A name is read as what it was written as, and as nothing else: `NNN_name.sql` with that number, or
      `R__name.sql`, or neither. */
  lemma NamesAreExact(digit: char -> Option<nat>, stem: string, number: nat, name: string)
    requires Decimal(digit)
    ensures NameOf(digit, stem + ".sql") == Versioned(number, name)
       <==> exists digits :: VersionedStem(digit, stem, digits, name) && Number(digit, digits) == number
    ensures NameOf(digit, stem + ".sql") == Repeatable(name) <==> RepeatableStem(stem, name)
  {
    Parts(stem, ".sql");
    RepeatableIsRead(stem, name);
    if VersionedName(digit, stem).Versioned? {
      var digits := VersionedIsWritten(digit, stem, name);
    }
    if digits :| VersionedStem(digit, stem, digits, name) && Number(digit, digits) == number {
      VersionedIsRead(digit, stem, digits, name);
    }
    if RepeatableStem(stem, name) {
      RepeatableIsNotVersioned(digit, stem);
    }
  }

  /** And a file name that does not end in `.sql` is neither. */
  lemma OnlySqlFiles(digit: char -> Option<nat>, filename: string)
    ensures NameOf(digit, filename) != Other ==> exists stem: string :: filename == stem + ".sql"
  {
    if NameOf(digit, filename) != Other {
      assert filename == filename[..|filename| - 4] + ".sql";
    }
  }

  /** A file of the directory, and the same once its name has been matched. */
  datatype Path = Path(filename: string, text: string)

  datatype File = File(filename: string, parsed: Name, text: string)

  function Match(digit: char -> Option<nat>, path: Path): File {
    File(path.filename, NameOf(digit, path.filename), path.text)
  }

  function Matched(digit: char -> Option<nat>, directory: seq<Path>): (files: seq<File>)
    ensures |files| == |directory|
    ensures forall k :: 0 <= k < |files| ==> files[k] == Match(digit, directory[k])
  {
    seq(|directory|, k requires 0 <= k < |directory| => Match(digit, directory[k]))
  }

  datatype Layout = Layout(versioned: seq<Migration>, repeatable: seq<Migration>)

  datatype Discovery = Found(layout: Layout) | SharedVersion(number: nat) | BadName(filename: string)

  function MigrationOf(hash: string -> string, f: File): Migration
    requires !f.parsed.Other?
  {
    Migration(if f.parsed.Versioned? then Some(f.parsed.number) else None,
              f.parsed.name, f.filename, f.text, Checksum(hash, f.text))
  }

  /** The repeatable files, in the directory's order. */
  function Repeatables(hash: string -> string, files: seq<File>): seq<Migration> {
    if files == [] then []
    else
      var f := files[|files| - 1];
      Repeatables(hash, files[..|files| - 1]) + if f.parsed.Repeatable? then [MigrationOf(hash, f)] else []
  }

  lemma {:induction false} RepeatablesAreFiles(hash: string -> string, files: seq<File>, m: Migration)
    requires m in Repeatables(hash, files)
    ensures exists k :: 0 <= k < |files| && files[k].parsed.Repeatable? && m == MigrationOf(hash, files[k])
  {
    var n := |files| - 1;
    if m in Repeatables(hash, files[..n]) {
      RepeatablesAreFiles(hash, files[..n], m);
      var k :| 0 <= k < n && files[..n][k].parsed.Repeatable? && m == MigrationOf(hash, files[..n][k]);
      assert files[k] == files[..n][k];
    } else {
      assert m == MigrationOf(hash, files[n]);
    }
  }

  ghost predicate Precedes(less: (string, string) -> bool, a: string, b: string) {
    less(a, b)
  }

  ghost predicate FilesSorted(files: seq<File>, less: (string, string) -> bool) {
    forall i, j :: 0 <= i < j < |files| ==> Precedes(less, files[i].filename, files[j].filename)
  }

  ghost predicate Sorted(ms: seq<Migration>, less: (string, string) -> bool) {
    forall i, j :: 0 <= i < j < |ms| ==> Precedes(less, ms[i].filename, ms[j].filename)
  }

  lemma SortedAppend(ms: seq<Migration>, m: Migration, less: (string, string) -> bool)
    requires Sorted(ms, less) && forall i :: 0 <= i < |ms| ==> Precedes(less, ms[i].filename, m.filename)
    ensures Sorted(ms + [m], less)
  {
  }

  /** However the directory is sorted by file name, the repeatable files are run in that order. */
  lemma {:induction false} RepeatablesKeepOrder(hash: string -> string, files: seq<File>,
                                              less: (string, string) -> bool)
    requires FilesSorted(files, less)
    ensures Sorted(Repeatables(hash, files), less)
  {
    if files != [] {
      var n := |files| - 1;
      var front := Repeatables(hash, files[..n]);
      RepeatablesKeepOrder(hash, files[..n], less);
      if files[n].parsed.Repeatable? {
        forall i | 0 <= i < |front| ensures Precedes(less, front[i].filename, files[n].filename) {
          RepeatablesAreFiles(hash, files[..n], front[i]);
        }
        SortedAppend(front, MigrationOf(hash, files[n]), less);
      }
    }
  }

  /** `m` is what a file of the directory says. */
  ghost predicate OfFile(hash: string -> string, digit: char -> Option<nat>, path: Path, m: Migration) {
    && m.filename == path.filename && m.sql == path.text && m.checksum == hash(Unix(path.text))
    && match NameOf(digit, path.filename)
       case Versioned(number, name) => m.version == Some(number) && m.name == name
       case Repeatable(name) => m.version == None && m.name == name
       case Other => false
  }

  ghost predicate HasFile(hash: string -> string, digit: char -> Option<nat>, path: Path, ms: seq<Migration>) {
    exists m :: m in ms && OfFile(hash, digit, path, m)
  }

  predicate Numbered(f: File, number: nat) {
    f.parsed.Versioned? && f.parsed.number == number
  }

  /** The k-th file stops discovery: its name fits no pattern, or its number is taken. */
  ghost predicate Problem(files: seq<File>, k: nat)
    requires k < |files|
  {
    files[k].parsed.Other? ||
    (files[k].parsed.Versioned? && exists j :: 0 <= j < k && Numbered(files[j], files[k].parsed.number))
  }

  /** `ms` are the migrations of the first n files. */
  ghost predicate Gathered(hash: string -> string, files: seq<File>, n: nat, ms: seq<Migration>)
    requires n <= |files|
  {
    && (forall k :: 0 <= k < n ==> !files[k].parsed.Other? && MigrationOf(hash, files[k]) in ms)
    && (forall m :: m in ms ==> exists k :: 0 <= k < n && !files[k].parsed.Other? && m == MigrationOf(hash, files[k]))
  }

  ghost predicate IsVersioned(m: Migration) {
    m.version.Some?
  }

  ghost predicate InOrder(ms: seq<Migration>) {
    && (forall k :: 0 <= k < |ms| ==> IsVersioned(ms[k]))
    && (forall j, k :: 0 <= j < k < |ms| ==> ms[j].version.value < ms[k].version.value)
  }

  lemma InOrderHead(ms: seq<Migration>)
    requires InOrder(ms) && ms != []
    ensures InOrder(ms[1..]) && IsVersioned(ms[0])
    ensures forall m :: m in ms[1..] ==> IsVersioned(m) && ms[0].version.value < m.version.value
    ensures forall m :: m in ms <==> m == ms[0] || m in ms[1..]
  {
    assert ms == [ms[0]] + ms[1..];
  }

  lemma InOrderLast(ms: seq<Migration>)
    requires InOrder(ms) && ms != []
    ensures InOrder(ms[..|ms| - 1]) && IsVersioned(ms[|ms| - 1])
    ensures forall m :: m in ms[..|ms| - 1] ==> IsVersioned(m) && m.version.value < ms[|ms| - 1].version.value
    ensures forall m :: m in ms <==> m == ms[|ms| - 1] || m in ms[..|ms| - 1]
  {
    assert ms == ms[..|ms| - 1] + [ms[|ms| - 1]];
  }

  lemma InOrderCons(m: Migration, ms: seq<Migration>)
    requires InOrder(ms) && IsVersioned(m) && forall x :: x in ms ==>
             IsVersioned(x) && m.version.value < x.version.value
    ensures InOrder([m] + ms)
  {
  }

  ghost predicate WellFormed(hash: string -> string, layout: Layout) {
    && InOrder(layout.versioned)
    && (forall k :: 0 <= k < |layout.repeatable| ==> !IsVersioned(layout.repeatable[k]))
    && (forall k :: 0 <= k < |layout.versioned| ==>
          layout.versioned[k].checksum == Checksum(hash, layout.versioned[k].sql))
  }

  function Insert(ms: seq<Migration>, m: Migration): seq<Migration>
    requires m.version.Some? && forall k :: 0 <= k < |ms| ==> ms[k].version.Some?
  {
    if ms == [] || m.version.value < ms[0].version.value then [m] + ms else [ms[0]] + Insert(ms[1..], m)
  }

  lemma {:induction false} InsertKeepsOrder(ms: seq<Migration>, m: Migration)
    requires InOrder(ms) && m.version.Some? && forall x :: x in ms ==> x.version != m.version
    ensures InOrder(Insert(ms, m)) == true
    ensures forall x :: x in Insert(ms, m) <==> x == m || x in ms
  {
    if ms == [] {
    } else if m.version.value < ms[0].version.value {
      InOrderHead(ms);
      InOrderCons(m, ms);
    } else {
      InOrderHead(ms);
      InsertKeepsOrder(ms[1..], m);
      InOrderCons(ms[0], Insert(ms[1..], m));
    }
  }

  /** A number is taken exactly when an earlier file has it. */
  lemma TakenIffEarlier(hash: string -> string, files: seq<File>, n: nat, ms: seq<Migration>, number: nat)
    requires n <= |files| && Gathered(hash, files, n, ms)
    ensures Known(ms, number) <==> exists j :: 0 <= j < n && Numbered(files[j], number)
  {
    if Known(ms, number) {
      var m :| m in ms && m.version == Some(number);
      var k :| 0 <= k < n && !files[k].parsed.Other? && m == MigrationOf(hash, files[k]);
      assert Numbered(files[k], number);
    }
    if j :| 0 <= j < n && Numbered(files[j], number) {
      assert MigrationOf(hash, files[j]).version == Some(number);
    }
  }

  lemma GatherOne(hash: string -> string, files: seq<File>, n: nat, ms: seq<Migration>, more: seq<Migration>)
    requires n < |files| && Gathered(hash, files, n, ms) && !files[n].parsed.Other?
    requires forall m :: m in more <==> m == MigrationOf(hash, files[n]) || m in ms
    ensures Gathered(hash, files, n + 1, more)
  {
    forall m | m in more
      ensures exists k :: 0 <= k < n + 1 && !files[k].parsed.Other? && m == MigrationOf(hash, files[k])
    {
      if m in ms {
        var k :| 0 <= k < n && !files[k].parsed.Other? && m == MigrationOf(hash, files[k]);
        assert 0 <= k < n + 1;
      }
    }
  }

  /** The state of discovery after the first n files. */
  ghost predicate Discovered(hash: string -> string, files: seq<File>, n: nat, layout: Layout)
    requires n <= |files|
  {
    && (forall k :: 0 <= k < n ==> !Problem(files, k))
    && WellFormed(hash, layout)
    && Gathered(hash, files, n, layout.versioned + layout.repeatable)
    && layout.repeatable == Repeatables(hash, files[..n])
  }

  predicate Taken(versioned: seq<Migration>, number: nat) {
    exists k :: 0 <= k < |versioned| && versioned[k].version == Some(number)
  }

  lemma ProblemIffTaken(hash: string -> string, files: seq<File>, n: nat, layout: Layout)
    requires n < |files| && Discovered(hash, files, n, layout)
    ensures Problem(files, n) <==>
              files[n].parsed.Other? || (files[n].parsed.Versioned? && Taken(layout.versioned, files[n].parsed.number))
  {
    if files[n].parsed.Versioned? {
      var number, all := files[n].parsed.number, layout.versioned + layout.repeatable;
      TakenIffEarlier(hash, files, n, all, number);
      assert Known(all, number) <==> Taken(layout.versioned, number) by {
        if m :| m in all && m.version == Some(number) {
          assert m in layout.versioned;
        }
        if k :| 0 <= k < |layout.versioned| && layout.versioned[k].version == Some(number) {
          assert layout.versioned[k] in all;
        }
      }
    }
  }

  lemma AddVersioned(hash: string -> string, files: seq<File>, n: nat, layout: Layout)
    requires n < |files| && Discovered(hash, files, n, layout) && files[n].parsed.Versioned?
    requires !Taken(layout.versioned, files[n].parsed.number)
    ensures Discovered(hash, files, n + 1, Layout(Insert(layout.versioned, MigrationOf(hash, files[n])),
            layout.repeatable)) == true
  {
    var m := MigrationOf(hash, files[n]);
    var more := Insert(layout.versioned, m);
    assert files[..n + 1][..n] == files[..n];
    ProblemIffTaken(hash, files, n, layout);
    InsertKeepsOrder(layout.versioned, m);
    GatherOne(hash, files, n, layout.versioned + layout.repeatable, more + layout.repeatable);
    forall k | 0 <= k < |more| ensures more[k].checksum == Checksum(hash, more[k].sql) {
      assert more[k] in more;
    }
  }

  lemma AddRepeatable(hash: string -> string, files: seq<File>, n: nat, layout: Layout)
    requires n < |files| && Discovered(hash, files, n, layout) && files[n].parsed.Repeatable?
    ensures Discovered(hash, files, n + 1,
                       Layout(layout.versioned, layout.repeatable + [MigrationOf(hash, files[n])])) == true
  {
    assert files[..n + 1][..n] == files[..n];
    ProblemIffTaken(hash, files, n, layout);
    GatherOne(hash, files, n, layout.versioned + layout.repeatable,
        layout.versioned + (layout.repeatable + [MigrationOf(hash, files[n])]));
  }

  method DiscoverMatched(hash: string -> string, files: seq<File>) returns (r: Discovery)
    ensures r.Found? ==> Discovered(hash, files, |files|, r.layout)
    ensures !r.Found? ==> exists k :: 0 <= k < |files| && Problem(files, k) && (forall j :: 0 <= j < k ==>
            !Problem(files, j))
                                      && r == if files[k].parsed.Other? then BadName(files[k].filename)
                                          else SharedVersion(files[k].parsed.number)
  {
    var versioned: seq<Migration>, repeatable: seq<Migration> := [], [];
    var i := 0;
    while i < |files|
      invariant 0 <= i <= |files|
      invariant Discovered(hash, files, i, Layout(versioned, repeatable)) == true
    {
      var f := files[i];
      ProblemIffTaken(hash, files, i, Layout(versioned, repeatable));
      if f.parsed.Other? {
        return BadName(f.filename);
      }
      if f.parsed.Versioned? {
        if Taken(versioned, f.parsed.number) {
          return SharedVersion(f.parsed.number);
        }
        AddVersioned(hash, files, i, Layout(versioned, repeatable));
        versioned := Insert(versioned, MigrationOf(hash, f));
      } else {
        AddRepeatable(hash, files, i, Layout(versioned, repeatable));
        repeatable := repeatable + [MigrationOf(hash, f)];
      }
      i := i + 1;
    }
    assert files[..i] == files;
    r := Found(Layout(versioned, repeatable));
  }

  /** `discover` over the directory's files, sorted by name: the first file with a bad name or a number
      already taken is reported; without one the layout holds a migration for every file and no other, the
      repeatable ones in the directory's order. */
  method Discover(hash: string -> string, digit: char -> Option<nat>, directory: seq<Path>) returns (r: Discovery)
    ensures r.Found? ==> Discovered(hash, Matched(digit, directory), |directory|, r.layout)
    ensures r.Found? ==> forall k :: 0 <= k < |directory| ==>
              HasFile(hash, digit, directory[k], r.layout.versioned + r.layout.repeatable)
    ensures r.Found? ==> forall m :: m in r.layout.versioned + r.layout.repeatable ==>
              exists k :: 0 <= k < |directory| && OfFile(hash, digit, directory[k], m)
    ensures !r.Found? ==> exists k :: 0 <= k < |directory| && Problem(Matched(digit, directory), k)
                                      && (forall j :: 0 <= j < k ==> !Problem(Matched(digit, directory), j))
                                      && r == if Matched(digit, directory)[k].parsed.Other?
                                          then BadName(directory[k].filename)
                                              else SharedVersion(Matched(digit, directory)[k].parsed.number)
  {
    r := DiscoverMatched(hash, Matched(digit, directory));
    if r.Found? {
      FilesAreTold(hash, digit, directory, r.layout);
    }
  }

  lemma FilesAreTold(hash: string -> string, digit: char -> Option<nat>, directory: seq<Path>, layout: Layout)
    requires Gathered(hash, Matched(digit, directory), |directory|, layout.versioned + layout.repeatable)
    ensures forall k :: 0 <= k < |directory| ==>
              HasFile(hash, digit, directory[k], layout.versioned + layout.repeatable)
    ensures forall m :: m in layout.versioned + layout.repeatable ==>
              exists k :: 0 <= k < |directory| && OfFile(hash, digit, directory[k], m)
  {
    var files, all := Matched(digit, directory), layout.versioned + layout.repeatable;
    forall k | 0 <= k < |directory| ensures HasFile(hash, digit, directory[k], all) {
      FileIsTold(hash, digit, directory[k]);
      assert MigrationOf(hash, files[k]) in all;
    }
    forall m | m in all ensures exists k :: 0 <= k < |directory| && OfFile(hash, digit, directory[k], m) {
      var k :| 0 <= k < |directory| && !files[k].parsed.Other? && m == MigrationOf(hash, files[k]);
      FileIsTold(hash, digit, directory[k]);
    }
  }

  lemma FileIsTold(hash: string -> string, digit: char -> Option<nat>, path: Path)
    ensures !Match(digit, path).parsed.Other? ==> OfFile(hash, digit, path, MigrationOf(hash, Match(digit, path)))
  {
  }

  // ---- recorded versions ------------------------------------------------------------------

  /** A row of `schema_migrations`; `appliedAt` is when the transaction that inserted it began. */
  datatype Record = Record(name: string, checksum: string, appliedAt: int)

  type Applied = map<nat, Record>

  ghost predicate Known(ms: seq<Migration>, v: nat) {
    exists m :: m in ms && m.version == Some(v)
  }

  ghost predicate Drifts(applied: Applied, versioned: seq<Migration>, v: nat) {
    v in applied && exists m :: m in versioned && m.version == Some(v) && m.checksum != applied[v].checksum
  }

  function Pending(applied: Applied, versioned: seq<Migration>): seq<Migration> {
    if versioned == [] then []
    else
      var m := versioned[0];
      (if m.version.Some? && m.version.value !in applied then [m] else []) + Pending(applied, versioned[1..])
  }

  lemma {:induction false} PendingIs(applied: Applied, versioned: seq<Migration>)
    requires InOrder(versioned)
    ensures InOrder(Pending(applied, versioned)) == true
    ensures forall m :: m in Pending(applied, versioned) <==> m in versioned && m.version.value !in applied
    ensures Pending(applied, versioned) == [] <==> forall m :: m in versioned ==> m.version.value in applied
  {
    if versioned != [] {
      InOrderHead(versioned);
      PendingIs(applied, versioned[1..]);
      InOrderCons(versioned[0], Pending(applied, versioned[1..]));
    }
  }

  /** The table after one more migration has run; a repeatable one is not recorded. */
  function RecordOne(applied: Applied, m: Migration, now: int): Applied {
    if m.version.Some? then applied[m.version.value := Record(m.name, m.checksum, now)] else applied
  }

  function RecordAll(applied: Applied, ms: seq<Migration>, now: int): Applied {
    if ms == [] then applied else RecordOne(RecordAll(applied, ms[..|ms| - 1], now), ms[|ms| - 1], now)
  }

  lemma {:induction false} RecordAllIs(applied: Applied, ms: seq<Migration>, now: int)
    requires InOrder(ms)
    ensures forall v :: v in RecordAll(applied, ms, now) <==> v in applied || Known(ms, v)
    ensures forall v :: v in applied && !Known(ms, v) ==> RecordAll(applied, ms, now)[v] == applied[v]
    ensures forall m :: m in ms ==>
              && m.version.value in RecordAll(applied, ms, now)
              && RecordAll(applied, ms, now)[m.version.value] == Record(m.name, m.checksum, now)
  {
    if ms != [] {
      var n := |ms| - 1;
      var last := ms[n];
      InOrderLast(ms);
      RecordAllIs(applied, ms[..n], now);
      forall v: nat ensures Known(ms, v) <==> Known(ms[..n], v) || Some(v) == last.version {
        if Known(ms[..n], v) {
          var m :| m in ms[..n] && m.version == Some(v);
          assert m in ms;
        }
        if Some(v) == last.version {
          assert last in ms;
        }
      }
    }
  }

  /** The database is at the code's schema: everything applied, nothing changed. */
  ghost predicate UpToDate(applied: Applied, versioned: seq<Migration>) {
    forall m :: m in versioned && m.version.Some? ==>
      m.version.value in applied && applied[m.version.value].checksum == m.checksum
  }

  /** Verify and run agree: verify accepts exactly what a run would pass with nothing pending. */
  lemma UpToDateIffNothingToDo(applied: Applied, versioned: seq<Migration>)
    requires InOrder(versioned)
    ensures UpToDate(applied, versioned) <==>
              (forall v :: !Drifts(applied, versioned, v)) && Pending(applied, versioned) == []
  {
    PendingIs(applied, versioned);
    if !UpToDate(applied, versioned) && Pending(applied, versioned) == [] {
      var m :| m in versioned && m.version.Some? &&
               !(m.version.value in applied && applied[m.version.value].checksum == m.checksum);
      assert Drifts(applied, versioned, m.version.value);
    }
  }

  /** A run that passes the drift check leaves the database at its code's schema, and every record it
      found as it was. */
  lemma RunMakesUpToDate(applied: Applied, versioned: seq<Migration>, now: int)
    requires InOrder(versioned) && forall v :: !Drifts(applied, versioned, v)
    ensures UpToDate(RecordAll(applied, Pending(applied, versioned), now), versioned)
    ensures Extends(RecordAll(applied, Pending(applied, versioned), now), applied)
  {
    var pending := Pending(applied, versioned);
    PendingIs(applied, versioned);
    RecordAllIs(applied, pending, now);
    assert forall v :: v in applied ==> !Known(pending, v);
    forall m | m in versioned
      ensures m.version.value in RecordAll(applied, pending, now)
              && RecordAll(applied, pending, now)[m.version.value].checksum == m.checksum
    {
      assert !Drifts(applied, versioned, m.version.value);
      assert m in versioned && m.version == Some(m.version.value);
    }
  }

  /** No record is removed or changed. */
  ghost predicate Extends(later: Applied, earlier: Applied) {
    forall v :: v in earlier ==> v in later && later[v] == earlier[v]
  }

  /** Once verify accepts, more records do not make it refuse. */
  lemma UpToDateStays(earlier: Applied, later: Applied, versioned: seq<Migration>)
    requires Extends(later, earlier) && UpToDate(earlier, versioned)
    ensures UpToDate(later, versioned)
  {
  }

  /** A recorded file drifts, and verify refuses, exactly if its text is not the one executed, line ends aside. */
  lemma ChangedFileIsRefused(hash: string -> string, applied: Applied, versioned: seq<Migration>, m: Migration,
                             executed: string)
    requires InOrder(versioned) && m in versioned && m.checksum == Checksum(hash, m.sql)
    requires m.version.value in applied && applied[m.version.value].checksum == Checksum(hash, executed)
    requires Distinguishes(hash, m.sql, executed)
    ensures Drifts(applied, versioned, m.version.value) <==> Unix(m.sql) != Unix(executed)
    ensures Unix(m.sql) != Unix(executed) ==> !UpToDate(applied, versioned)
  {
    var v := m.version.value;
    ChecksumsTell(hash, m.sql, executed);
    if Drifts(applied, versioned, v) {
      var x :| x in versioned && x.version == Some(v) && x.checksum != applied[v].checksum;
      OnePerVersion(versioned, x, m);
    }
    if Unix(m.sql) != Unix(executed) {
      assert m in versioned && m.version == Some(v) && m.checksum != applied[v].checksum;
    }
  }

  lemma OnePerVersion(versioned: seq<Migration>, a: Migration, b: Migration)
    requires InOrder(versioned) && a in versioned && b in versioned && a.version == b.version
    ensures a == b
  {
    var i :| 0 <= i < |versioned| && versioned[i] == a;
    var j :| 0 <= j < |versioned| && versioned[j] == b;
    assert i == j;
  }

  // ---- sorted(...) ------------------------------------------------------------------------

  ghost predicate Rising(vs: seq<nat>) {
    forall j, k :: 0 <= j < k < |vs| ==> vs[j] < vs[k]
  }

  function InsertVersion(vs: seq<nat>, v: nat): seq<nat> {
    if vs == [] || v < vs[0] then [v] + vs else [vs[0]] + InsertVersion(vs[1..], v)
  }

  lemma {:induction false} InsertKeepsRising(vs: seq<nat>, v: nat)
    requires Rising(vs) && v !in vs
    ensures Rising(InsertVersion(vs, v))
    ensures forall x :: x in InsertVersion(vs, v) <==> x in vs || x == v
  {
    if vs != [] && v > vs[0] {
      InsertKeepsRising(vs[1..], v);
      var rest := InsertVersion(vs[1..], v);
      assert vs == [vs[0]] + vs[1..];
      forall k | 0 <= k < |rest| ensures vs[0] < rest[k] {
        assert rest[k] in rest;
      }
    }
  }

  method SortedVersions(versions: set<nat>) returns (vs: seq<nat>)
    ensures Rising(vs) && forall v :: v in vs <==> v in versions
  {
    vs := [];
    var left := versions;
    while left != {}
      invariant Rising(vs) && left <= versions
      invariant forall v :: v in vs <==> v in versions && v !in left
      decreases |left|
    {
      var v :| v in left;
      InsertKeepsRising(vs, v);
      vs := InsertVersion(vs, v);
      left := left - {v};
    }
  }
}
