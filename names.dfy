/**
 * The file-name recognisers of the scripts. Each regular expression is
 * written out as the deterministic scan Python's backtracking matcher ends up
 * performing on it: every `+` run below is followed by a character the run
 * cannot contain, so the greedy run is the only one that can succeed.
 */
module Names {
  import opened Wrappers
  import opened Text
  import opened Scan
  import Calendar

  // ---- `(?P<protocol>[^_]+)_(?P<animal>\d+)_(?P<date>\d{8})_\d+_box(?P<box>\w+)`, IGNORECASE, `match` ----

  /** The groups of a session file name, plus the unnamed time run. */
  datatype SessionName = SessionName(protocol: string, animal: string, date: string, time: string, box: string)

  /** A successful match: the groups, the spelling of "box" and the text after the match. */
  datatype SessionMatch = SessionMatch(groups: SessionName, tag: string, rest: string)

  predicate NotUnderscore(c: char) { c != '_' }

  /** The shapes the pattern's groups can take. */
  predicate WellFormedSession(n: SessionName)
  {
    n.protocol != [] && All(n.protocol, NotUnderscore)
    && n.animal != [] && AllDigits(n.animal)
    && |n.date| == 8 && AllDigits(n.date)
    && n.time != [] && AllDigits(n.time)
    && n.box != [] && All(n.box, IsWordChar)
  }

  /** The text the pattern consumes. */
  function SessionText(n: SessionName, tag: string): string
  {
    n.protocol + "_" + n.animal + "_" + n.date + "_" + n.time + "_" + tag + n.box
  }

  /**
   * `filename_regex.match(stem)`; `None` where the scripts raise `ValueError`.
   * A match splits the name into well-formed groups, a case variant of
   * "box", and a tail that does not continue the box run.
   */
  function MatchSessionName(stem: string): (r: Option<SessionMatch>)
    ensures r.Some? ==> WellFormedSession(r.value.groups) && EqualIgnoreCase(r.value.tag, "box")
                        && (r.value.rest == [] || !IsWordChar(r.value.rest[0]))
                        && stem == SessionText(r.value.groups, r.value.tag) + r.value.rest
  {
    match Run(stem, NotUnderscore)
    case None => None
    case Some(p) =>
      match Char(p.rest, '_')
      case None => None
      case Some(r1) =>
        match Run(r1, IsDigit)
        case None => None
        case Some(a) =>
          match Char(a.rest, '_')
          case None => None
          case Some(r2) =>
            match Fixed(r2, 8, IsDigit)
            case None => None
            case Some(d) =>
              match Char(d.rest, '_')
              case None => None
              case Some(r3) =>
                match MatchTimeAndBox(r3)
                case None => None
                case Some(m) =>
                  var n := SessionName(p.piece, a.piece, d.piece, m.groups.time, m.groups.box);
                  SessionTextNested(n, m.tag, m.rest);
                  Some(SessionMatch(n, m.tag, m.rest))
  }

  /**
   * `\d+_box(?P<box>\w+)` after the date's underscore: only the time and box
   * groups of the result are filled in.
   */
  function MatchTimeAndBox(r3: string): (r: Option<SessionMatch>)
    ensures r.Some? ==> var g := r.value.groups;
                        g.time != [] && AllDigits(g.time) && g.box != [] && All(g.box, IsWordChar)
                        && EqualIgnoreCase(r.value.tag, "box")
                        && (r.value.rest == [] || !IsWordChar(r.value.rest[0]))
                        && r3 == g.time + ("_" + (r.value.tag + (g.box + r.value.rest)))
  {
    match Run(r3, IsDigit)
    case None => None
    case Some(t) =>
      match Char(t.rest, '_')
      case None => None
      case Some(r4) =>
        match WordIgnoreCase(r4, "box")
        case None => None
        case Some(tag) =>
          match Run(tag.rest, IsWordChar)
          case None => None
          case Some(b) =>
            assert r4 == tag.piece + (b.piece + b.rest);
            Some(SessionMatch(SessionName([], [], [], t.piece, b.piece), tag.piece, b.rest))
  }

  /** `SessionText` read from the right, the way the matcher consumes it. */
  lemma SessionTextNested(n: SessionName, tag: string, rest: string)
    ensures SessionText(n, tag) + rest
         == n.protocol + ("_" + (n.animal + ("_" + (n.date + ("_" + (n.time + ("_" + (tag + (n.box + rest)))))))))
  {
  }

  /**
   * The converse: every name built from well-formed groups, a case variant
   * of "box" and a tail that does not continue the box run is matched, with
   * exactly those groups.
   */
  lemma MatchSessionNameComplete(n: SessionName, tag: string, rest: string)
    requires WellFormedSession(n)
    requires EqualIgnoreCase(tag, "box")
    requires rest == [] || !IsWordChar(rest[0])
    ensures MatchSessionName(SessionText(n, tag) + rest) == Some(SessionMatch(n, tag, rest))
  {
    var u := "_";
    var afterBox := rest;
    var afterTag := n.box + afterBox;
    var r4 := tag + afterTag;
    var afterTime := u + r4;
    var r3 := n.time + afterTime;
    var afterDate := u + r3;
    var r2 := n.date + afterDate;
    var afterAnimal := u + r2;
    var r1 := n.animal + afterAnimal;
    var afterProtocol := u + r1;
    assert SessionText(n, tag) + rest == n.protocol + afterProtocol;
    RunOf(n.protocol, afterProtocol, NotUnderscore);
    CharOf('_', r1);
    RunOf(n.animal, afterAnimal, IsDigit);
    CharOf('_', r2);
    FixedOf(n.date, afterDate, IsDigit);
    CharOf('_', r3);
    MatchTimeAndBoxOf(n.time, tag, n.box, rest);
  }

  lemma MatchTimeAndBoxOf(time: string, tag: string, box: string, rest: string)
    requires time != [] && AllDigits(time) && box != [] && All(box, IsWordChar)
    requires EqualIgnoreCase(tag, "box")
    requires rest == [] || !IsWordChar(rest[0])
    ensures MatchTimeAndBox(time + ("_" + (tag + (box + rest)))) == Some(SessionMatch(SessionName([], [], [], time, box), tag, rest))
  {
    var r4 := tag + (box + rest);
    RunOf(time, "_" + r4, IsDigit);
    CharOf('_', r4);
    WordIgnoreCaseOf(tag, box + rest, "box");
    RunOf(box, rest, IsWordChar);
  }

  /** Why a name is refused: no match (`ValueError` from the scripts) or a date that does not exist. */
  datatype NameError = NotMatched | InvalidCalendarValue

  /**
   * `extract_metadata` of general_2choice_auditory.py, general_free_licking.py
   * and general_spout_sampling.py: the date and box groups of the file's stem.
   */
  function ExtractMetadata(fileName: string): (r: Result<(string, string), NameError>)
    ensures r.Ok? ==> |r.value.0| == 8 && AllDigits(r.value.0) && r.value.1 != [] && All(r.value.1, IsWordChar)
    ensures r.Err? <==> MatchSessionName(Stem(fileName)).None?
  {
    match MatchSessionName(Stem(fileName))
    case None => Err(NotMatched)
    case Some(m) => Ok((m.groups.date, m.groups.box))
  }

  /** A session file `<groups>.csv` yields its date and box groups, whatever the case of "box". */
  lemma ExtractMetadataOfSessionFile(n: SessionName, tag: string)
    requires WellFormedSession(n) && EqualIgnoreCase(tag, "box")
    ensures ExtractMetadata(SessionText(n, tag) + ".csv") == Ok((n.date, n.box))
  {
    MatchSessionNameComplete(n, tag, []);
    assert SessionText(n, tag) + [] == SessionText(n, tag);
    StemOfCsv(SessionText(n, tag));
  }

  // ---- `datetime.strptime(date + time, "%Y%m%d%H%M%S")` ----

  /** A calendar instant, as `datetime` holds it. */
  datatype Stamp = Stamp(year: int, month: int, day: int, hour: int, minute: int, second: int)

  /** Chronological order as a number. */
  function StampKey(t: Stamp): int
  {
    ((((t.year * 100 + t.month) * 100 + t.day) * 100 + t.hour) * 100 + t.minute) * 100 + t.second
  }

  /** The number the `n` digits at `i` spell. */
  function Field(digits: string, i: nat, n: nat): nat
    requires i + n <= |digits| && AllDigits(digits)
  {
    DigitsValue(digits[i..i + n])
  }

  /**
   * `strptime` of 14 digits. Its directives also accept one-digit fields, but
   * a one-digit field leaves digits over at the end, which `strptime`
   * refuses; so it succeeds exactly when the two-digit split names a real
   * instant, and `None` is the `ValueError` it raises otherwise.
   */
  function ParseStamp(digits: string): (r: Option<Stamp>)
    requires |digits| == 14 && AllDigits(digits)
    ensures r.Some? ==> Calendar.ValidDate(r.value.year, r.value.month, r.value.day)
                        && Calendar.ValidTime(r.value.hour, r.value.minute, r.value.second)
  {
    var t := Stamp(Field(digits, 0, 4), Field(digits, 4, 2), Field(digits, 6, 2),
                   Field(digits, 8, 2), Field(digits, 10, 2), Field(digits, 12, 2));
    if Calendar.ValidDate(t.year, t.month, t.day) && Calendar.ValidTime(t.hour, t.minute, t.second)
    then Some(t) else None
  }

  /** The parsed instant's key is the number the 14 digits spell. */
  lemma StampKeyIsDigitsValue(digits: string)
    requires |digits| == 14 && AllDigits(digits) && ParseStamp(digits).Some?
    ensures StampKey(ParseStamp(digits).value) == DigitsValue(digits)
  {
    var t := ParseStamp(digits).value;
    assert Pow10(2) == 100;
    AppendField(digits, 4);
    AppendField(digits, 6);
    AppendField(digits, 8);
    AppendField(digits, 10);
    AppendField(digits, 12);
    assert digits[..14] == digits;
    assert digits[..4] == digits[0..4];
  }

  lemma AppendField(digits: string, i: nat)
    requires 2 <= i <= 12 && |digits| == 14 && AllDigits(digits)
    ensures AllDigits(digits[..i]) && AllDigits(digits[..i + 2])
    ensures DigitsValue(digits[..i + 2]) == DigitsValue(digits[..i]) * Pow10(2) + Field(digits, i, 2)
  {
    assert digits[..i + 2] == digits[..i] + digits[i..i + 2];
    assert AllDigits(digits[..i]) by {
      forall k | 0 <= k < i ensures IsDigit(digits[..i][k]) { assert digits[..i][k] == digits[k]; }
    }
    DigitsValueAppend(digits[..i], digits[i..i + 2]);
  }

  /**
   * So ordering files by their parsed instants is ordering them by the
   * 14-digit strings in their names.
   */
  lemma StampOrderIsNameOrder(a: string, b: string)
    requires |a| == 14 && AllDigits(a) && ParseStamp(a).Some?
    requires |b| == 14 && AllDigits(b) && ParseStamp(b).Some?
    ensures StampKey(ParseStamp(a).value) < StampKey(ParseStamp(b).value) <==> LexLess(a, b)
  {
    StampKeyIsDigitsValue(a);
    StampKeyIsDigitsValue(b);
    LexLessIsNumericOrder(a, b);
  }

  // ---- `fname_rx`: `^(?:2ChoiceAuditory|2ChoiceBlocks)_(\d+)_(\d{8})_(\d{6})_.*\.csv$`, IGNORECASE ----

  datatype RecordingName = RecordingName(animal: string, date: string, time: string)

  /** A match: the groups, the protocol prefix as spelled, and the text after the time's underscore. */
  datatype RecordingMatch = RecordingMatch(groups: RecordingName, prefix: string, tail: string)

  predicate IsRecordingProtocol(p: string)
  {
    EqualIgnoreCase(p, "2ChoiceAuditory") || EqualIgnoreCase(p, "2ChoiceBlocks")
  }

  predicate WellFormedRecording(n: RecordingName)
  {
    n.animal != [] && AllDigits(n.animal)
    && |n.date| == 8 && AllDigits(n.date)
    && |n.time| == 6 && AllDigits(n.time)
  }

  /**
   * `.*\.csv$`: `.` stops at a newline and `$` also matches before a final
   * newline, so the tail, less one final newline, ends in ".csv" (in any
   * case) and holds no newline.
   */
  predicate CsvTail(t: string)
  {
    var core := if t != [] && t[|t| - 1] == '\n' then t[..|t| - 1] else t;
    |core| >= 4 && EqualIgnoreCase(core[|core| - 4..], ".csv") && !Contains(core, '\n')
  }

  function RecordingText(m: RecordingMatch): string
  {
    m.prefix + "_" + m.groups.animal + "_" + m.groups.date + "_" + m.groups.time + "_" + m.tail
  }

  /**
   * `fname_rx.match(name)`. The two alternatives differ in their eighth
   * letter, so at most one can start a match and trying them in order is
   * exact.
   */
  function MatchRecordingName(name: string): (r: Option<RecordingMatch>)
    ensures r.Some? ==> IsRecordingProtocol(r.value.prefix) && WellFormedRecording(r.value.groups)
                        && CsvTail(r.value.tail) && name == RecordingText(r.value)
  {
    match ProtocolPrefix(name)
    case None => None
    case Some(p) =>
      match Char(p.rest, '_')
      case None => None
      case Some(r1) =>
        match Run(r1, IsDigit)
        case None => None
        case Some(a) =>
          match Char(a.rest, '_')
          case None => None
          case Some(r2) =>
            match Fixed(r2, 8, IsDigit)
            case None => None
            case Some(d) =>
              match Char(d.rest, '_')
              case None => None
              case Some(r3) =>
                match Fixed(r3, 6, IsDigit)
                case None => None
                case Some(t) =>
                  match Char(t.rest, '_')
                  case None => None
                  case Some(tail) =>
                    if !CsvTail(tail) then None
                    else
                      var m := RecordingMatch(RecordingName(a.piece, d.piece, t.piece), p.piece, tail);
                      RecordingTextNested(m);
                      Some(m)
  }

  /** `(?:2ChoiceAuditory|2ChoiceBlocks)`, alternatives tried in order. */
  function ProtocolPrefix(name: string): (r: Option<Step>)
    ensures r.Some? ==> name == r.value.piece + r.value.rest && IsRecordingProtocol(r.value.piece)
  {
    match WordIgnoreCase(name, "2ChoiceAuditory")
    case Some(w) => Some(w)
    case None => WordIgnoreCase(name, "2ChoiceBlocks")
  }

  lemma ProtocolPrefixOf(prefix: string, rest: string)
    requires IsRecordingProtocol(prefix)
    ensures ProtocolPrefix(prefix + rest) == Some(Step(prefix, rest))
  {
    var s := prefix + rest;
    if EqualIgnoreCase(prefix, "2ChoiceAuditory") {
      WordIgnoreCaseOf(prefix, rest, "2ChoiceAuditory");
    } else {
      assert Lower(prefix[7]) == 'b';
      if |s| >= 15 {
        assert s[..15][7] == prefix[7];
        assert Lower("2ChoiceAuditory"[7]) == 'a';
        assert !EqualIgnoreCase(s[..15], "2ChoiceAuditory");
      }
      WordIgnoreCaseOf(prefix, rest, "2ChoiceBlocks");
    }
  }

  lemma RecordingTextNested(m: RecordingMatch)
    ensures RecordingText(m)
         == m.prefix + ("_" + (m.groups.animal + ("_" + (m.groups.date + ("_" + (m.groups.time + ("_" + m.tail)))))))
  {
  }

  /** Every name of that shape is matched, with exactly those groups. */
  lemma MatchRecordingNameComplete(m: RecordingMatch)
    requires IsRecordingProtocol(m.prefix) && WellFormedRecording(m.groups) && CsvTail(m.tail)
    ensures MatchRecordingName(RecordingText(m)) == Some(m)
  {
    var n := m.groups;
    var r3 := n.time + ("_" + m.tail);
    var r2 := n.date + ("_" + r3);
    var r1 := n.animal + ("_" + r2);
    var s := m.prefix + ("_" + r1);
    RecordingTextNested(m);
    assert RecordingText(m) == s;
    ProtocolPrefixOf(m.prefix, "_" + r1);
    CharOf('_', r1);
    RunOf(n.animal, "_" + r2, IsDigit);
    CharOf('_', r2);
    FixedOf(n.date, "_" + r3, IsDigit);
    CharOf('_', r3);
    FixedOf(n.time, "_" + m.tail, IsDigit);
    CharOf('_', m.tail);
  }

  /** The tails `.*\.csv$` accepts and refuses, after any newline-free text. */
  lemma CsvTailExamples(x: string)
    requires !Contains(x, '\n')
    ensures CsvTail(x + ".csv") && CsvTail(x + ".CSV") && CsvTail(x + ".csv\n")
    ensures !CsvTail(x + ".csv.bak") && !CsvTail(x + ".csv\n\n")
  {
    var a := x + ".csv";
    assert a[|a| - 4..] == ".csv";
    assert !Contains(a, '\n') by {
      forall i | 0 <= i < |a| ensures a[i] != '\n' {
        if i < |x| { assert a[i] == x[i]; }
      }
    }
    var b := x + ".CSV";
    assert b[|b| - 4..] == ".CSV";
    assert !Contains(b, '\n') by {
      forall i | 0 <= i < |b| ensures b[i] != '\n' {
        if i < |x| { assert b[i] == x[i]; }
      }
    }
    var c := x + ".csv\n";
    assert c[..|c| - 1] == a;
    var d := x + ".csv.bak";
    assert d[|d| - 4..] == ".bak";
    assert Lower('b') != Lower('.');
    var e := x + ".csv\n\n";
    assert e[..|e| - 1] == a + "\n";
    assert (a + "\n")[|a|] == '\n';
  }

  // ---- `box_rx`: `box[\s_-]?(\d+)`, IGNORECASE, `search` in folder names ----

  predicate IsBoxSeparator(c: char) { IsSpace(c) || c == '_' || c == '-' }

  /** The anchored match at the start of `s`: the digit group. */
  function FolderBoxAt(s: string): (r: Option<string>)
    ensures r.Some? ==> r.value != [] && AllDigits(r.value)
  {
    match WordIgnoreCase(s, "box")
    case None => None
    case Some(w) =>
      var sep := Optional(w.rest, IsBoxSeparator);
      match Run(sep.rest, IsDigit)
      case None => None
      case Some(d) => Some(d.piece)
  }

  lemma FolderBoxAtOf(tag: string, sep: string, digits: string, rest: string)
    requires EqualIgnoreCase(tag, "box")
    requires |sep| <= 1 && All(sep, IsBoxSeparator)
    requires digits != [] && AllDigits(digits) && (rest == [] || !IsDigit(rest[0]))
    ensures FolderBoxAt(tag + (sep + (digits + rest))) == Some(digits)
  {
    WordIgnoreCaseOf(tag, sep + (digits + rest), "box");
    assert !IsBoxSeparator(digits[0]);
    OptionalOf(sep, digits + rest, IsBoxSeparator);
    RunOf(digits, rest, IsDigit);
  }

  /** No match starts at a character other than `b` or `B`. */
  lemma NoFolderBoxAt(x: string)
    requires x != [] && Lower(x[0]) != 'b'
    ensures FolderBoxAt(x).None?
  {
    assert Lower("box"[0]) == 'b';
    if |x| >= 3 {
      assert x[..3][0] == x[0];
    }
  }

  /** `box_rx.search(name)`: the digits of the leftmost match, if any. */
  function FolderBox(name: string): (r: Option<string>)
    ensures r.Some? ==> r.value != [] && AllDigits(r.value)
  {
    match Search(name, 0, FolderBoxAt)
    case None => None
    case Some(found) => Some(found.1)
  }

  /** The search finds nothing exactly when no position starts a match. */
  lemma FolderBoxNone(name: string)
    ensures FolderBox(name).None? <==> forall j :: 0 <= j <= |name| ==> FolderBoxAt(name[j..]).None?
  {
    SearchIsLeftmost(name, 0, FolderBoxAt);
  }

  /** "Box 3", "box_3", "BOX-3" and "Box3" after a prefix without a `b` all give "3"'s digits. */
  lemma FolderBoxFinds(pre: string, tag: string, sep: string, digits: string, rest: string)
    requires forall i :: 0 <= i < |pre| ==> Lower(pre[i]) != 'b'
    requires EqualIgnoreCase(tag, "box")
    requires |sep| <= 1 && All(sep, IsBoxSeparator)
    requires digits != [] && AllDigits(digits) && (rest == [] || !IsDigit(rest[0]))
    ensures FolderBox(pre + tag + sep + digits + rest) == Some(digits)
  {
    var t := tag + (sep + (digits + rest));
    var s := pre + t;
    assert pre + tag + sep + digits + rest == s;
    assert s[|pre|..] == t;
    FolderBoxAtOf(tag, sep, digits, rest);
    forall j | 0 <= j < |pre| ensures FolderBoxAt(s[j..]).None? {
      assert s[j..][0] == pre[j];
      NoFolderBoxAt(s[j..]);
    }
    SearchFinds(s, |pre|, FolderBoxAt);
  }

  // ---- `BOX_REGEX`: `[Bb]ox[_\-]?([A-Za-z0-9]+)`, `search` in a file stem ----

  predicate IsB(c: char) { c == 'B' || c == 'b' }

  predicate IsDashOrUnderscore(c: char) { c == '_' || c == '-' }

  predicate IsAsciiAlnum(c: char) { IsAsciiLetter(c) || IsDigit(c) }

  function StemBoxAt(s: string): (r: Option<string>)
    ensures r.Some? ==> r.value != [] && All(r.value, IsAsciiAlnum)
  {
    match Fixed(s, 1, IsB)
    case None => None
    case Some(b) =>
      match Word(b.rest, "ox")
      case None => None
      case Some(r1) =>
        var sep := Optional(r1, IsDashOrUnderscore);
        match Run(sep.rest, IsAsciiAlnum)
        case None => None
        case Some(g) => Some(g.piece)
  }

  lemma StemBoxAtOf(b: char, sep: string, group: string, rest: string)
    requires IsB(b)
    requires |sep| <= 1 && All(sep, IsDashOrUnderscore)
    requires group != [] && All(group, IsAsciiAlnum) && (rest == [] || !IsAsciiAlnum(rest[0]))
    ensures StemBoxAt([b] + "ox" + sep + group + rest) == Some(group)
  {
    assert [b] + "ox" + sep + group + rest == [b] + ("ox" + (sep + (group + rest)));
    FixedOf([b], "ox" + (sep + (group + rest)), IsB);
    WordOf("ox", sep + (group + rest));
    OptionalOf(sep, group + rest, IsDashOrUnderscore);
    RunOf(group, rest, IsAsciiAlnum);
  }

  /**
   * The box label of performance_across_days.py: "Box " and the group of the
   * leftmost match in the first file's stem, or `None`.
   */
  function BoxLabel(stem: string): (r: Option<string>)
    ensures r.Some? ==> StartsWith(r.value, "Box ") && |r.value| > 4
  {
    match Search(stem, 0, StemBoxAt)
    case None => None
    case Some(found) =>
      assert ("Box " + found.1)[..4] == "Box ";
      Some("Box " + found.1)
  }

  /** No label exactly when no position of the stem starts a match. */
  lemma BoxLabelNone(stem: string)
    ensures BoxLabel(stem).None? <==> forall j :: 0 <= j <= |stem| ==> StemBoxAt(stem[j..]).None?
  {
    SearchIsLeftmost(stem, 0, StemBoxAt);
  }

  lemma BoxLabelFinds(pre: string, b: char, sep: string, group: string, rest: string)
    requires forall i :: 0 <= i < |pre| ==> !IsB(pre[i])
    requires IsB(b)
    requires |sep| <= 1 && All(sep, IsDashOrUnderscore)
    requires group != [] && All(group, IsAsciiAlnum) && (rest == [] || !IsAsciiAlnum(rest[0]))
    ensures BoxLabel(pre + [b] + "ox" + sep + group + rest) == Some("Box " + group)
  {
    var s := pre + [b] + "ox" + sep + group + rest;
    assert s[|pre|..] == [b] + "ox" + sep + group + rest;
    StemBoxAtOf(b, sep, group, rest);
    forall j | 0 <= j < |pre| ensures StemBoxAt(s[j..]).None? {
      assert s[j..][0] == pre[j];
    }
    SearchFinds(s, |pre|, StemBoxAt);
  }

  // ---- concat_files.py: `2ChoiceAuditory_\d+_(\d{8}_\d{6})_box`, `search`, then strptime ----

  /** The anchored match: the date and time digits of the group. */
  function MergeStampAt(s: string): (r: Option<(string, string)>)
    ensures r.Some? ==> |r.value.0| == 8 && AllDigits(r.value.0) && |r.value.1| == 6 && AllDigits(r.value.1)
  {
    match Word(s, "2ChoiceAuditory_")
    case None => None
    case Some(r1) =>
      match Run(r1, IsDigit)
      case None => None
      case Some(a) =>
        match Char(a.rest, '_')
        case None => None
        case Some(r2) =>
          match Fixed(r2, 8, IsDigit)
          case None => None
          case Some(d) =>
            match Char(d.rest, '_')
            case None => None
            case Some(r3) =>
              match Fixed(r3, 6, IsDigit)
              case None => None
              case Some(t) =>
                match Word(t.rest, "_box")
                case None => None
                case Some(_) => Some((d.piece, t.piece))
  }

  lemma MergeStampAtOf(animal: string, date: string, time: string, rest: string)
    requires animal != [] && AllDigits(animal)
    requires |date| == 8 && AllDigits(date) && |time| == 6 && AllDigits(time)
    ensures MergeStampAt("2ChoiceAuditory_" + animal + "_" + date + "_" + time + "_box" + rest) == Some((date, time))
  {
    var r3 := time + ("_box" + rest);
    var r2 := date + ("_" + r3);
    var r1 := animal + ("_" + r2);
    assert "2ChoiceAuditory_" + animal + "_" + date + "_" + time + "_box" + rest == "2ChoiceAuditory_" + r1;
    WordOf("2ChoiceAuditory_", r1);
    RunOf(animal, "_" + r2, IsDigit);
    CharOf('_', r2);
    FixedOf(date, "_" + r3, IsDigit);
    CharOf('_', r3);
    FixedOf(time, "_box" + rest, IsDigit);
    WordOf("_box", rest);
  }

  /**
   * `extract_timestamp`: `Ok(None)` without a match, the parsed instant of
   * the leftmost match, or `Err` for the `ValueError` `strptime` raises on a
   * date or time that does not exist (the script does not catch it).
   */
  function ExtractTimestamp(fileName: string): (r: Result<Option<Stamp>, NameError>)
  {
    match Search(fileName, 0, MergeStampAt)
    case None => Ok(None)
    case Some(found) =>
      var (date, time) := found.1;
      match ParseStamp(date + time)
      case None => Err(InvalidCalendarValue)
      case Some(t) => Ok(Some(t))
  }

  /** `Ok(None)` exactly when no position of the name starts a match. */
  lemma ExtractTimestampNone(fileName: string)
    ensures ExtractTimestamp(fileName) == Ok(None) <==> forall j :: 0 <= j <= |fileName| ==> MergeStampAt(fileName[j..]).None?
  {
    SearchIsLeftmost(fileName, 0, MergeStampAt);
  }

  /** A recording's own name yields the instant its date and time digits spell. */
  lemma ExtractTimestampOfRecording(animal: string, date: string, time: string, rest: string)
    requires animal != [] && AllDigits(animal)
    requires |date| == 8 && AllDigits(date) && |time| == 6 && AllDigits(time)
    ensures AllDigits(date + time)
    ensures ExtractTimestamp("2ChoiceAuditory_" + animal + "_" + date + "_" + time + "_box" + rest)
         == match ParseStamp(date + time) case None => Err(InvalidCalendarValue) case Some(t) => Ok(Some(t))
  {
    DigitsValueAppend(date, time);
    MergeStampAtOf(animal, date, time, rest);
    var s := "2ChoiceAuditory_" + animal + "_" + date + "_" + time + "_box" + rest;
    assert s[0..] == s;
    SearchFinds(s, 0, MergeStampAt);
  }

  // ---- transfer_files.py: `_([0-9]{6})_([0-9]{8})_`, `search` in the base name ----

  /** The anchored match: animal id and date. */
  function RouteAt(s: string): (r: Option<(string, string)>)
    ensures r.Some? ==> |r.value.0| == 6 && AllDigits(r.value.0) && |r.value.1| == 8 && AllDigits(r.value.1)
  {
    match Char(s, '_')
    case None => None
    case Some(r1) =>
      match Fixed(r1, 6, IsDigit)
      case None => None
      case Some(a) =>
        match Char(a.rest, '_')
        case None => None
        case Some(r2) =>
          match Fixed(r2, 8, IsDigit)
          case None => None
          case Some(d) =>
            match Char(d.rest, '_')
            case None => None
            case Some(_) => Some((a.piece, d.piece))
  }

  /** `re.search(pattern, base_name)`: animal id and date of the leftmost match. */
  function RouteOf(baseName: string): (r: Option<(string, string)>)
    ensures r.Some? ==> |r.value.0| == 6 && AllDigits(r.value.0) && |r.value.1| == 8 && AllDigits(r.value.1)
  {
    match Search(baseName, 0, RouteAt)
    case None => None
    case Some(found) => Some(found.1)
  }

  /** No route exactly when no position of the base name starts a match. */
  lemma RouteOfNone(baseName: string)
    ensures RouteOf(baseName).None? <==> forall j :: 0 <= j <= |baseName| ==> RouteAt(baseName[j..]).None?
  {
    SearchIsLeftmost(baseName, 0, RouteAt);
  }

  /** A base name whose first underscore opens `_<6 digits>_<8 digits>_` routes to those digits. */
  lemma RouteOfFinds(pre: string, animal: string, date: string, rest: string)
    requires All(pre, NotUnderscore)
    requires |animal| == 6 && AllDigits(animal) && |date| == 8 && AllDigits(date)
    ensures RouteOf(pre + "_" + animal + "_" + date + "_" + rest) == Some((animal, date))
  {
    var s := pre + "_" + animal + "_" + date + "_" + rest;
    var r2 := date + ("_" + rest);
    var r1 := animal + ("_" + r2);
    assert s[|pre|..] == "_" + r1;
    CharOf('_', r1);
    FixedOf(animal, "_" + r2, IsDigit);
    CharOf('_', r2);
    FixedOf(date, "_" + rest, IsDigit);
    CharOf('_', rest);
    forall j | 0 <= j < |pre| ensures RouteAt(s[j..]).None? {
      assert s[j..][0] == pre[j];
    }
    SearchFinds(s, |pre|, RouteAt);
  }

  // ---- `DATE_REGEX`: `^(\d{4})[-_]?(\d{2})[-_]?(\d{2})$`, `fullmatch` ----

  /** A calendar day, as `datetime(y, m, d)` holds it. */
  datatype Date = Date(year: int, month: int, day: int)

  function DateKey(d: Date): int { (d.year * 100 + d.month) * 100 + d.day }

  predicate IsDateSeparator(c: char) { c == '-' || c == '_' }

  /** The pieces a matching folder name is made of. */
  datatype DatePieces = DatePieces(year: string, sep1: string, month: string, sep2: string, day: string)

  predicate WellFormedDatePieces(p: DatePieces)
  {
    |p.year| == 4 && AllDigits(p.year)
    && |p.sep1| <= 1 && All(p.sep1, IsDateSeparator)
    && |p.month| == 2 && AllDigits(p.month)
    && |p.sep2| <= 1 && All(p.sep2, IsDateSeparator)
    && |p.day| == 2 && AllDigits(p.day)
  }

  function DateText(p: DatePieces): string { p.year + (p.sep1 + (p.month + (p.sep2 + p.day))) }

  function ScanDate(name: string): (r: Option<DatePieces>)
    ensures r.Some? ==> WellFormedDatePieces(r.value) && name == DateText(r.value)
  {
    match Fixed(name, 4, IsDigit)
    case None => None
    case Some(y) =>
      match ScanMonthDay(y.rest)
      case None => None
      case Some(md) =>
        Some(DatePieces(y.piece, md.sep1, md.month, md.sep2, md.day))
  }

  /** The part after the year, `[-_]?\d{2}[-_]?\d{2}$`; only the pieces after the year are filled in. */
  function ScanMonthDay(s: string): (r: Option<DatePieces>)
    ensures r.Some? ==> var p := r.value;
                        |p.sep1| <= 1 && All(p.sep1, IsDateSeparator)
                        && |p.month| == 2 && AllDigits(p.month)
                        && |p.sep2| <= 1 && All(p.sep2, IsDateSeparator)
                        && |p.day| == 2 && AllDigits(p.day)
                        && s == p.sep1 + (p.month + (p.sep2 + p.day))
  {
    var s1 := Optional(s, IsDateSeparator);
    match Fixed(s1.rest, 2, IsDigit)
    case None => None
    case Some(m) =>
      var s2 := Optional(m.rest, IsDateSeparator);
      match Fixed(s2.rest, 2, IsDigit)
      case None => None
      case Some(d) =>
        if d.rest != [] then None
        else
          assert d.piece + d.rest == d.piece;
          Some(DatePieces([], s1.piece, m.piece, s2.piece, d.piece))
  }

  lemma ScanDateComplete(p: DatePieces)
    requires WellFormedDatePieces(p)
    ensures ScanDate(DateText(p)) == Some(p)
  {
    FixedOf(p.year, p.sep1 + (p.month + (p.sep2 + p.day)), IsDigit);
    ScanMonthDayComplete(p);
  }

  lemma ScanMonthDayComplete(p: DatePieces)
    requires WellFormedDatePieces(p)
    ensures ScanMonthDay(p.sep1 + (p.month + (p.sep2 + p.day))) == Some(DatePieces([], p.sep1, p.month, p.sep2, p.day))
  {
    var afterMonth := p.sep2 + p.day;
    assert !IsDateSeparator(p.month[0]);
    OptionalOf(p.sep1, p.month + afterMonth, IsDateSeparator);
    FixedOf(p.month, afterMonth, IsDigit);
    assert !IsDateSeparator(p.day[0]);
    OptionalOf(p.sep2, p.day, IsDateSeparator);
    assert p.day == p.day + [];
    FixedOf(p.day, [], IsDigit);
  }

  /**
   * `parse_date`: `Ok(None)` for a folder name that is not a date,
   * `Err` for the `ValueError` `datetime` raises on a day that does not exist.
   */
  function ParseDate(name: string): (r: Result<Option<Date>, NameError>)
    ensures r == Ok(None) <==> ScanDate(name).None?
    ensures r.Ok? && r.value.Some? ==> Calendar.ValidDate(r.value.value.year, r.value.value.month, r.value.value.day)
    ensures r.Err? ==> r.error == InvalidCalendarValue
  {
    match ScanDate(name)
    case None => Ok(None)
    case Some(p) =>
      var d := Date(DigitsValue(p.year), DigitsValue(p.month), DigitsValue(p.day));
      if Calendar.ValidDate(d.year, d.month, d.day) then Ok(Some(d)) else Err(InvalidCalendarValue)
  }

  /** "20250723", "2025-07-23" and "2025_07-23" name the same day: the separators do not matter. */
  lemma ParseDateIgnoresSeparators(p: DatePieces, q: DatePieces)
    requires WellFormedDatePieces(p) && WellFormedDatePieces(q)
    requires p.year == q.year && p.month == q.month && p.day == q.day
    ensures ParseDate(DateText(p)) == ParseDate(DateText(q))
    ensures ParseDate(DateText(p)) != Ok(None)
  {
    ScanDateComplete(p);
    ScanDateComplete(q);
  }
}
