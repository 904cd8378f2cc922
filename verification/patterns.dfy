/** The three regular expressions the chat service searches messages with,
    over ASCII text: `dr\.?\s+(\w+)` for a doctor's name,
    `(\d{1,2}):?(\d{2})?\s*(am|pm)` for a time of day, and
    `(\d{4}-\d{2}-\d{2})` for a date. Each matcher follows the engine's
    semantics: the leftmost start position wins, and at one position greedy
    quantifiers try their longer alternative first. */
module Patterns {
  import opened Wrappers
  import opened Text

  /** `\s` on ASCII text: space, tab, line feed, vertical tab, form feed,
      carriage return, and the four separators 0x1C to 0x1F. */
  predicate IsSpace(c: char) {
    c == ' ' || 9 <= c as int <= 13 || 28 <= c as int <= 31
  }

  /** `\w` on ASCII: letters, digits and the underscore. */
  predicate IsWordChar(c: char) {
    ('a' <= c <= 'z') || ('A' <= c <= 'Z') || IsDigit(c) || c == '_'
  }

  /** The two character classes the patterns repeat: `\s` and `\w`. */
  datatype CharClass = Space | Word

  predicate InClass(c: char, p: CharClass) {
    match p
    case Space => IsSpace(c)
    case Word => IsWordChar(c)
  }

  /** The length of the longest run of characters of class `p` from `i`. */
  function Run(s: string, i: nat, p: CharClass): (n: nat)
    requires i <= |s|
    ensures i + n <= |s|
    ensures forall k :: i <= k < i + n ==> InClass(s[k], p)
    ensures i + n < |s| ==> !InClass(s[i + n], p)
    decreases |s| - i
  {
    if i < |s| && InClass(s[i], p) then 1 + Run(s, i + 1, p) else 0
  }

  /** A run of `p`-characters from `i` that a non-`p` character (or the end)
      closes is the longest one. */
  lemma RunExact(s: string, i: nat, p: CharClass, n: nat)
    requires i + n <= |s|
    requires forall k :: i <= k < i + n ==> InClass(s[k], p)
    requires i + n == |s| || !InClass(s[i + n], p)
    ensures Run(s, i, p) == n
  {
  }

  // ---- `\s+(\w+)` ------------------------------------------------------------

  /** `\s+(\w+)` matches at `j` with `n` spaces and captures `w`; greedy `\w+`
      takes the whole word. */
  predicate SpacedWordSplit(s: string, j: nat, n: nat, w: string) {
    && n >= 1 && |w| >= 1 && j + n + |w| <= |s|
    && (forall k :: j <= k < j + n ==> IsSpace(s[k]))
    && s[j + n..j + n + |w|] == w
    && (forall k :: 0 <= k < |w| ==> IsWordChar(w[k]))
    && (j + n + |w| == |s| || !IsWordChar(s[j + n + |w|]))
  }

  ghost predicate SpacedWord(s: string, j: nat, w: string) {
    exists n :: SpacedWordSplit(s, j, n, w)
  }

  /** A match of `\s+(\w+)` at `j` takes every space there and then the
      whole word that follows. */
  lemma SpacedWordRuns(s: string, j: nat, w: string)
    requires SpacedWord(s, j, w)
    ensures j <= |s|
    ensures var n := Run(s, j, Space);
      n >= 1 && Run(s, j + n, Word) == |w| >= 1 && w == s[j + n..j + n + |w|]
  {
    var n :| SpacedWordSplit(s, j, n, w);
    assert s[j + n] == w[0] && IsWordChar(w[0]);
    assert !InClass(s[j + n], Space);
    RunExact(s, j, Space, n);
    RunExact(s, j + n, Word, |w|);
  }

  /** Both runs non-empty: the spaces and the word after them are a match. */
  lemma SpacedWordFound(s: string, j: nat)
    requires j <= |s|
    requires Run(s, j, Space) >= 1 && Run(s, j + Run(s, j, Space), Word) >= 1
    ensures var n := Run(s, j, Space);
      SpacedWord(s, j, s[j + n..j + n + Run(s, j + n, Word)])
  {
    var n := Run(s, j, Space);
    var m := Run(s, j + n, Word);
    var w := s[j + n..j + n + m];
    forall k | j <= k < j + n
      ensures IsSpace(s[k])
    {
      assert InClass(s[k], Space);
    }
    forall k | 0 <= k < |w|
      ensures IsWordChar(w[k])
    {
      var i := j + n + k;
      assert w[k] == s[i] && InClass(s[i], Word);
    }
    assert j + n + m == |s| || !InClass(s[j + n + m], Word);
    assert SpacedWordSplit(s, j, n, w);
  }

  /** The matcher for `\s+(\w+)` at `j`. */
  function SpacedWordAt(s: string, j: nat): (r: Option<string>)
    requires j <= |s|
    ensures forall w :: SpacedWord(s, j, w) <==> r == Some(w)
  {
    var n := Run(s, j, Space);
    var m := Run(s, j + n, Word);
    var r := if n == 0 || m == 0 then None else Some(s[j + n..j + n + m]);
    assert forall w :: SpacedWord(s, j, w) ==> r == Some(w) by {
      forall w | SpacedWord(s, j, w) ensures r == Some(w) { SpacedWordRuns(s, j, w); }
    }
    if r.Some? then SpacedWordFound(s, j); r else r
  }

  // ---- `dr\.?\s+(\w+)` -------------------------------------------------------

  /** `dr\.?\s+(\w+)` matches at `i` and captures `w`. */
  ghost predicate DoctorMatch(s: string, i: nat, w: string) {
    && i + 2 <= |s| && s[i..i + 2] == "dr"
    && (SpacedWord(s, i + 2, w) || (i + 2 < |s| && s[i + 2] == '.' && SpacedWord(s, i + 3, w)))
  }

  /** The matcher for `dr\.?\s+(\w+)` at `i`: the optional dot is tried first. */
  function DoctorAt(s: string, i: nat): (r: Option<string>)
    ensures forall w :: DoctorMatch(s, i, w) <==> r == Some(w)
  {
    if i + 2 > |s| || s[i..i + 2] != "dr" then None
    else if i + 2 < |s| && s[i + 2] == '.' && SpacedWordAt(s, i + 3).Some? then
      var k := i + 2;
      assert forall w :: !SpacedWord(s, k, w);
      SpacedWordAt(s, i + 3)
    else
      SpacedWordAt(s, i + 2)
  }

  /** `re.search(r'dr\.?\s+(\w+)', s)`: the leftmost match and its capture. */
  function FindDoctor(s: string): (r: Option<(nat, string)>)
    ensures r.Some? ==> DoctorMatch(s, r.value.0, r.value.1)
    ensures r.Some? ==> forall j: nat, w :: j < r.value.0 ==> !DoctorMatch(s, j, w)
    ensures r.None? ==> forall j: nat, w :: !DoctorMatch(s, j, w)
  {
    var f := (i: nat) => DoctorAt(s, i);
    var r := Leftmost(0, |s| + 1, f);
    forall j: nat ensures f(j) == DoctorAt(s, j) {
    }
    forall j: nat, w | DoctorMatch(s, j, w) ensures j <= |s| && f(j) == Some(w) {
    }
    r
  }

  // ---- `(\d{1,2}):?(\d{2})?\s*(am|pm)` ----------------------------------------

  datatype Period = Am | Pm

  /** The three groups of a time match: the hour's digits, the minute's two
      digits if that group took part, and the period. */
  datatype TimeCapture = TimeCapture(hour: string, minute: Option<string>, period: Period)

  /** One way through the time pattern: one or two hour digits, with or
      without the colon, with or without the minute group. */
  datatype TimeChoice = TimeChoice(hourDigits: nat, colon: bool, minute: bool)

  /** The order in which backtracking tries the ways through the pattern:
      each greedy quantifier tries its longer form first, the last one varying
      fastest. */
  const TimeChoices: seq<TimeChoice> := [
    TimeChoice(2, true, true), TimeChoice(2, true, false),
    TimeChoice(2, false, true), TimeChoice(2, false, false),
    TimeChoice(1, true, true), TimeChoice(1, true, false),
    TimeChoice(1, false, true), TimeChoice(1, false, false)]

  /** `am` or `pm` at `k`. */
  function PeriodAt(s: string, k: nat): Option<Period> {
    if k + 2 <= |s| && s[k..k + 2] == "am" then Some(Am)
    else if k + 2 <= |s| && s[k..k + 2] == "pm" then Some(Pm)
    else None
  }

  /** Where the minute group starts and where it ends under choice `c`. */
  function MinuteFrom(i: nat, c: TimeChoice): nat {
    i + c.hourDigits + (if c.colon then 1 else 0)
  }

  function MinuteTo(i: nat, c: TimeChoice): nat {
    MinuteFrom(i, c) + (if c.minute then 2 else 0)
  }

  /** The pattern matches at `i` taking choice `c`; `\s*` takes every space,
      since `am|pm` cannot begin with one. */
  predicate TimeFits(s: string, i: nat, c: TimeChoice) {
    && 1 <= c.hourDigits <= 2
    && MinuteTo(i, c) <= |s|
    && AllDigits(s[i..i + c.hourDigits])
    && (c.colon ==> s[i + c.hourDigits] == ':')
    && (c.minute ==> AllDigits(s[MinuteFrom(i, c)..MinuteTo(i, c)]))
    && PeriodAt(s, MinuteTo(i, c) + Run(s, MinuteTo(i, c), Space)).Some?
  }

  /** The groups captured when choice `c` matches at `i`. */
  function CaptureOf(s: string, i: nat, c: TimeChoice): (t: TimeCapture)
    requires TimeFits(s, i, c)
    ensures AllDigits(t.hour) && 1 <= |t.hour| <= 2
    ensures t.minute.Some? ==> AllDigits(t.minute.value) && |t.minute.value| == 2
  {
    var e := MinuteTo(i, c);
    TimeCapture(s[i..i + c.hourDigits],
                if c.minute then Some(s[MinuteFrom(i, c)..e]) else None,
                PeriodAt(s, e + Run(s, e, Space)).value)
  }

  /** The matcher for the time pattern at `i`: the first choice, in
      backtracking order, that matches. */
  function TimeAt(s: string, i: nat): (r: Option<TimeCapture>)
    ensures r.None? <==> forall k :: 0 <= k < |TimeChoices| ==> !TimeFits(s, i, TimeChoices[k])
    ensures r.Some? ==>
              exists k :: && 0 <= k < |TimeChoices| && TimeFits(s, i, TimeChoices[k])
                          && r.value == CaptureOf(s, i, TimeChoices[k])
                          && forall k' :: 0 <= k' < k ==> !TimeFits(s, i, TimeChoices[k'])
  {
    match FirstIndex(TimeChoices, (c: TimeChoice) => TimeFits(s, i, c))
    case None => None
    case Some(k) => Some(CaptureOf(s, i, TimeChoices[k]))
  }

  /** `re.search(r'(\d{1,2}):?(\d{2})?\s*(am|pm)', s)`. */
  function FindTime(s: string): (r: Option<(nat, TimeCapture)>)
    ensures r.Some? ==> TimeAt(s, r.value.0) == Some(r.value.1)
    ensures r.Some? ==> forall j: nat :: j < r.value.0 ==> TimeAt(s, j).None?
    ensures r.None? ==> forall j: nat :: j <= |s| ==> TimeAt(s, j).None?
  {
    var f := (i: nat) => TimeAt(s, i);
    var r := Leftmost(0, |s| + 1, f);
    forall j: nat ensures f(j) == TimeAt(s, j) {
    }
    r
  }

  // ---- `(\d{4}-\d{2}-\d{2})` --------------------------------------------------

  /** Four digits, a dash, two digits, a dash, two digits. */
  predicate IsoShape(t: string) {
    && |t| == 10 && AllDigits(t[..4]) && t[4] == '-'
    && AllDigits(t[5..7]) && t[7] == '-' && AllDigits(t[8..])
  }

  function IsoAt(s: string, i: nat): (r: Option<string>)
    ensures r.Some? <==> i + 10 <= |s| && IsoShape(s[i..i + 10])
    ensures r.Some? ==> r.value == s[i..i + 10]
  {
    if i + 10 <= |s| && IsoShape(s[i..i + 10]) then Some(s[i..i + 10]) else None
  }

  /** `re.search(r'(\d{4}-\d{2}-\d{2})', s)`. */
  function FindIsoDate(s: string): (r: Option<(nat, string)>)
    ensures r.Some? ==> r.value.0 + 10 <= |s| && r.value.1 == s[r.value.0..r.value.0 + 10]
    ensures r.Some? ==> IsoShape(r.value.1)
    ensures r.Some? ==> forall j: nat :: j < r.value.0 ==> IsoAt(s, j).None?
    ensures r.None? ==> forall j: nat :: IsoAt(s, j).None?
  {
    var f := (i: nat) => IsoAt(s, i);
    var r := Leftmost(0, |s| + 1, f);
    forall j: nat ensures f(j) == IsoAt(s, j) {
    }
    r
  }
}
