/** Reading an instance's `instance.cmd`: the value extraction of
    `parseInstanceLine`, the key matching of `parseInstanceFile` (three
    optional settings, a later line overriding an earlier one), the
    descriptor built from them, and the `dirname`/`basename` arithmetic that
    names the instance and its stage. */
module Config {
  import opened CString

  datatype Option<T> = None | Some(value: T)

  /* ---------------------------------------------------------------------
     parseInstanceLine
     --------------------------------------------------------------------- */

  /** The first position in `[from, bound)` holding `c`, or `bound`. */
  function FirstFrom(line: seq<char>, c: char, from: nat, bound: nat): (r: nat)
    requires from <= bound <= |line|
    ensures from <= r <= bound
    ensures r < bound ==> line[r] == c
    ensures forall k :: from <= k < r ==> line[k] != c
    decreases bound - from
  {
    if from == bound || line[from] == c then from else FirstFrom(line, c, from + 1, bound)
  }

  /** The last alphanumeric position in `(s, e]`, or `s` when there is none:
      `s` itself is never tested. */
  function LastAlnumAbove(line: seq<char>, s: nat, e: nat): (r: nat)
    requires s <= e < |line|
    ensures s <= r <= e
    ensures r > s ==> IsAlnum(line[r])
    ensures forall k :: r < k <= e ==> !IsAlnum(line[k])
    decreases e - s
  {
    if e == s || IsAlnum(line[e]) then e else LastAlnumAbove(line, s, e - 1)
  }

  /** Where the value starts: just past the first `"` that follows the first
      `,`; when either is missing before the last character, the last
      character. */
  function ValueStart(line: seq<char>): (s: nat)
    requires |line| >= 1
    ensures s <= |line| - 1
  {
    var last := |line| - 1;
    var comma := FirstFrom(line, ',', 0, last);
    var quote := FirstFrom(line, '"', comma, last);
    if quote < last then quote + 1 else last
  }

  /** The value `parseInstanceLine` returns for the C string `line`: from
      the value start up to the last alphanumeric character after it. */
  function InstanceValue(line: seq<char>): (r: seq<char>)
    requires |line| >= 1
    ensures |r| >= 1
    ensures |r| > 1 ==> IsAlnum(r[|r| - 1])
  {
    var s := ValueStart(line);
    line[s..LastAlnumAbove(line, s, |line| - 1) + 1]
  }

  /** `parseInstanceLine` as written: three pointer loops, then the value is
      cut at `e + 1` and duplicated. */
  method ParseInstanceLine(line: seq<char>) returns (value: seq<char>)
    requires |line| >= 1 && NoNul(line)
    ensures value == InstanceValue(line)
  {
    var e := |line| - 1;
    var s := SkipToComma(line, e);
    s := SkipPastQuote(line, s, e);
    assert s == ValueStart(line);
    e := TrimToAlnum(line, s, e);
    value := line[s..e + 1];
  }

  /** The first loop: skip everything until the comma. */
  method SkipToComma(line: seq<char>, e: nat) returns (s: nat)
    requires e < |line|
    ensures s == FirstFrom(line, ',', 0, e)
  {
    s := 0;
    while s < e
      invariant s <= e && FirstFrom(line, ',', s, e) == FirstFrom(line, ',', 0, e)
      decreases e - s
    {
      if line[s] == ',' {
        break;
      }
      s := s + 1;
    }
  }

  /** The second loop: skip the comma, the blanks and the opening quote. */
  method SkipPastQuote(line: seq<char>, from: nat, e: nat) returns (s: nat)
    requires from <= e < |line|
    ensures s == if FirstFrom(line, '"', from, e) < e then FirstFrom(line, '"', from, e) + 1 else e
  {
    s := from;
    while s < e
      invariant from <= s <= e && FirstFrom(line, '"', s, e) == FirstFrom(line, '"', from, e)
      decreases e - s
    {
      if line[s] == '"' {
        s := s + 1;
        break;
      }
      s := s + 1;
    }
  }

  /** The third loop: step back over the closing quote and bracket. */
  method TrimToAlnum(line: seq<char>, s: nat, last: nat) returns (e: nat)
    requires s <= last < |line|
    ensures e == LastAlnumAbove(line, s, last)
  {
    e := last;
    while e > s
      invariant s <= e <= last && LastAlnumAbove(line, s, e) == LastAlnumAbove(line, s, last)
      decreases e
    {
      if IsAlnum(line[e]) {
        break;
      }
      e := e - 1;
    }
  }

  /** A line of the documented shape `<key>,<blanks>"<value><tail>` yields
      exactly its value, provided the key holds no comma, the blanks no
      quote, the value ends in an alphanumeric character and the tail (the
      closing quote, bracket and newline) holds none. */
  lemma WellFormedValue(key: seq<char>, sep: seq<char>, v: seq<char>, tail: seq<char>)
    requires forall k :: 0 <= k < |key| ==> key[k] != ','
    requires forall k :: 0 <= k < |sep| ==> sep[k] != '"'
    requires |v| >= 1 && IsAlnum(v[|v| - 1])
    requires forall k :: 0 <= k < |tail| ==> !IsAlnum(tail[k])
    ensures InstanceValue(key + [','] + sep + ['"'] + v + tail) == v
  {
    var head := key + [','] + sep + ['"'];
    HeadShape(key, sep);
    var line := head + v + tail;
    var last := |line| - 1;
    var c := |key|;
    var q := |head| - 1;
    assert forall k :: 0 <= k < |head| ==> line[k] == head[k];
    FirstFromIs(line, ',', 0, last, c);
    FirstFromIs(line, '"', c, last, q);
    var j := |head| + |v| - 1;
    assert line[j] == v[|v| - 1];
    assert forall k :: j < k <= last ==> line[k] == tail[k - j - 1];
    LastAlnumIs(line, q + 1, last, j);
    assert ValueStart(line) == q + 1;
    assert line[q + 1..j + 1] == v;
    assert InstanceValue(line) == line[q + 1..j + 1];
  }

  /** Where the comma and the opening quote of `<key>,<blanks>"` are. */
  lemma HeadShape(key: seq<char>, sep: seq<char>)
    requires forall k :: 0 <= k < |key| ==> key[k] != ','
    requires forall k :: 0 <= k < |sep| ==> sep[k] != '"'
    ensures var head := key + [','] + sep + ['"'];
              |head| == |key| + |sep| + 2 && head[|key|] == ',' && head[|head| - 1] == '"'
              && (forall k :: 0 <= k < |key| ==> head[k] != ',')
              && (forall k :: |key| <= k < |head| - 1 ==> head[k] != '"')
  {
    var head := key + [','] + sep + ['"'];
    assert forall k :: 0 <= k < |key| ==> head[k] == key[k];
    assert forall k :: |key| < k < |head| - 1 ==> head[k] == sep[k - |key| - 1];
  }

  lemma FirstFromIs(line: seq<char>, c: char, from: nat, bound: nat, r: nat)
    requires from <= r < bound <= |line|
    requires line[r] == c && forall k :: from <= k < r ==> line[k] != c
    ensures FirstFrom(line, c, from, bound) == r
  {
  }

  lemma LastAlnumIs(line: seq<char>, s: nat, e: nat, j: nat)
    requires s <= j <= e < |line|
    requires IsAlnum(line[j]) && forall k :: j < k <= e ==> !IsAlnum(line[k])
    ensures LastAlnumAbove(line, s, e) == j
  {
  }

  /** The documented example line `epicsEnvSet("LOCATION", "LAB")`. */
  lemma LocationExample()
    ensures InstanceValue(LocationKey + ", \"LAB\")\n") == "LAB"
  {
    var tail := "\")\n";
    assert tail[0] == '"' && tail[1] == ')' && tail[2] == '\n';
    KeysHaveNoComma();
    WellFormedValue(LocationKey, " ", "LAB", tail);
    ExampleText(LocationKey);
  }

  /** The example line, assembled from its parts. */
  lemma ExampleText(key: seq<char>)
    ensures key + [','] + " " + ['"'] + "LAB" + "\")\n" == key + ", \"LAB\")\n"
  {
    assert [','] + " " + ['"'] + "LAB" + "\")\n" == ", \"LAB\")\n";
  }

  /* ---------------------------------------------------------------------
     Key matching in parseInstanceFile
     --------------------------------------------------------------------- */

  const LocationKey: seq<char> := "epicsEnvSet(\"LOCATION\""
  const DeviceKey: seq<char> := "epicsEnvSet(\"DEVICE_NAME\""
  const CameraKey: seq<char> := "epicsEnvSet(\"CAMERA_NAME\""

  datatype Key = Location | DeviceName | CameraName | Other

  /** The `strncmp` chain: 22 characters of the location key, but only 24 of
      the 25 characters of the other two, so their closing quote is not
      compared. */
  function Classify(line: seq<char>): (k: Key)
    ensures k != Other ==> |line| >= 22
  {
    if PrefixMatches(line, LocationKey, 22) then Location
    else if PrefixMatches(line, DeviceKey, 24) then DeviceName
    else if PrefixMatches(line, CameraKey, 24) then CameraName
    else Other
  }

  /** A line starting with a full key is classified by that key. */
  lemma ClassifyKeyLines(rest: seq<char>)
    ensures Classify(LocationKey + rest) == Location
    ensures Classify(DeviceKey + rest) == DeviceName
    ensures Classify(CameraKey + rest) == CameraName
  {
    assert (LocationKey + rest)[..22] == LocationKey[..22];
    assert (DeviceKey + rest)[..24] == DeviceKey[..24];
    assert (CameraKey + rest)[..24] == CameraKey[..24];
    assert (DeviceKey + rest)[..22] != LocationKey[..22] by {
      assert (DeviceKey + rest)[13] != LocationKey[13];
    }
    assert (CameraKey + rest)[..22] != LocationKey[..22] by {
      assert (CameraKey + rest)[13] != LocationKey[13];
    }
    assert (CameraKey + rest)[..24] != DeviceKey[..24] by {
      assert (CameraKey + rest)[13] != DeviceKey[13];
    }
  }

  /** Because the closing quote is not compared, a different macro whose name
      merely starts with DEVICE_NAME is taken for the device name. */
  lemma DeviceKeyIgnoresClosingQuote()
    ensures Classify("epicsEnvSet(\"DEVICE_NAMES\", \"X\")\n") == DeviceName
  {
    var line := "epicsEnvSet(\"DEVICE_NAMES\", \"X\")\n";
    assert line[..24] == DeviceKey[..24];
    assert line[13] != LocationKey[13];
  }

  /** The three values found so far; `None` is a NULL pointer. */
  datatype Settings = Settings(location: Option<seq<char>>, device: Option<seq<char>>,
                               camera: Option<seq<char>>)

  /** One pass of the `while (!feof(fp))` body: the text `fgets` stored,
      seen as a C string, overrides the setting its key names. */
  function Absorb(f: Settings, raw: seq<char>): Settings
  {
    var line := CStr(raw);
    match Classify(line)
    case Location => f.(location := Some(InstanceValue(line)))
    case DeviceName => f.(device := Some(InstanceValue(line)))
    case CameraName => f.(camera := Some(InstanceValue(line)))
    case Other => f
  }

  /** The settings after the lines `ls`, in order. */
  function Collect(ls: seq<seq<char>>): Settings
    decreases |ls|
  {
    if ls == [] then Settings(None, None, None)
    else Absorb(Collect(ls[..|ls| - 1]), ls[|ls| - 1])
  }

  function Slot(f: Settings, k: Key): Option<seq<char>>
    requires k != Other
  {
    match k
    case Location => f.location
    case DeviceName => f.device
    case CameraName => f.camera
  }

  predicate MatchesAt(ls: seq<seq<char>>, i: nat, k: Key)
    requires i < |ls|
  {
    Classify(CStr(ls[i])) == k
  }

  /** Line `i` is the last one whose key is `k`. */
  predicate LastMatch(ls: seq<seq<char>>, i: nat, k: Key)
  {
    i < |ls| && MatchesAt(ls, i, k) && forall j :: i < j < |ls| ==> !MatchesAt(ls, j, k)
  }

  /** One line changes the setting its key names, and only that one. */
  lemma AbsorbSlot(f: Settings, raw: seq<char>, k: Key)
    requires k != Other
    ensures Slot(Absorb(f, raw), k) ==
              if Classify(CStr(raw)) == k then Some(InstanceValue(CStr(raw))) else Slot(f, k)
  {
  }

  /** The settings after `ls + [l]` are those after `ls`, absorbing `l`. */
  lemma CollectSnoc(ls: seq<seq<char>>, l: seq<char>)
    ensures Collect(ls + [l]) == Absorb(Collect(ls), l)
  {
    assert (ls + [l])[..|ls|] == ls;
  }

  /** A setting is missing exactly when no line carries its key. */
  lemma {:induction false} MissingIffNoMatch(ls: seq<seq<char>>, k: Key)
    requires k != Other
    ensures Slot(Collect(ls), k).None? <==> forall i :: 0 <= i < |ls| ==> !MatchesAt(ls, i, k)
    decreases |ls|
  {
    if ls != [] {
      var init := ls[..|ls| - 1];
      var last := |ls| - 1;
      MissingIffNoMatch(init, k);
      assert ls == init + [ls[last]];
      CollectSnoc(init, ls[last]);
      AbsorbSlot(Collect(init), ls[last], k);
      assert forall i :: 0 <= i < |init| ==> (MatchesAt(init, i, k) <==> MatchesAt(ls, i, k));
      if MatchesAt(ls, last, k) {
        assert Slot(Collect(ls), k).Some?;
      } else {
        assert Slot(Collect(ls), k) == Slot(Collect(init), k);
      }
    }
  }

  /** Otherwise it is the value of the last line that carries the key. */
  lemma {:induction false} LastMatchWins(ls: seq<seq<char>>, i: nat, k: Key)
    requires k != Other && LastMatch(ls, i, k)
    ensures Slot(Collect(ls), k) == Some(InstanceValue(CStr(ls[i])))
    decreases |ls|
  {
    var init := ls[..|ls| - 1];
    var last := |ls| - 1;
    assert ls == init + [ls[last]];
    CollectSnoc(init, ls[last]);
    AbsorbSlot(Collect(init), ls[last], k);
    if i < last {
      assert !MatchesAt(ls, last, k);
      assert init[i] == ls[i];
      assert forall j :: i < j < |init| ==> (MatchesAt(init, j, k) <==> MatchesAt(ls, j, k));
      LastMatchWins(init, i, k);
    }
  }

  /** A later matching line overrides an earlier one, whatever lies between
      them. */
  lemma LaterLineOverrides(ls: seq<seq<char>>, l: seq<char>)
    requires Classify(CStr(l)) != Other
    ensures Slot(Collect(ls + [l]), Classify(CStr(l))) == Some(InstanceValue(CStr(l)))
  {
    CollectSnoc(ls, l);
    AbsorbSlot(Collect(ls), l, Classify(CStr(l)));
  }

  /** Where `parseInstanceLine` leaves `e`: the last character of the value. */
  function ValueEnd(line: seq<char>): (j: nat)
    requires |line| >= 1
    ensures ValueStart(line) <= j < |line|
    ensures j > ValueStart(line) ==> IsAlnum(line[j])
    ensures forall k :: j < k < |line| ==> !IsAlnum(line[k])
  {
    LastAlnumAbove(line, ValueStart(line), |line| - 1)
  }

  /** The line buffer after one pass of the loop: on a key line
      `parseInstanceLine` has written a NUL just after the value, so the C
      string left in the buffer is the line cut there; any other line is
      left as it was. */
  function Truncated(raw: seq<char>): (r: seq<char>)
    ensures Classify(CStr(raw)) == Other ==> r == raw
    ensures Classify(CStr(raw)) != Other ==>
              |r| >= 1 && r[|r| - 1] == Nul && r[..|r| - 1] <= CStr(raw)
              && ValueStart(CStr(raw)) < |r| && r[ValueStart(CStr(raw))..|r| - 1] == InstanceValue(CStr(raw))
  {
    var line := CStr(raw);
    if Classify(line) != Other then line[..ValueEnd(line) + 1] + [Nul] else raw
  }

  /** A NUL written just after a NUL-free text ends the C string there. */
  lemma {:induction false} CStrCut(t: seq<char>)
    requires NoNul(t)
    ensures CStr(t + [Nul]) == t
  {
    if t != [] {
      assert (t + [Nul])[1..] == t[1..] + [Nul];
      CStrCut(t[1..]);
    }
  }

  /** None of the compared key characters is a comma. */
  lemma KeysHaveNoComma()
    ensures forall k :: 0 <= k < 22 ==> LocationKey[k] != ','
    ensures forall k :: 0 <= k < 24 ==> DeviceKey[k] != ','
    ensures forall k :: 0 <= k < 24 ==> CameraKey[k] != ','
  {
  }

  /** A line that starts with `n` comma-free characters has its first comma,
      if it has one before its last character, past them. */
  lemma CommaPastKey(line: seq<char>, key: seq<char>, n: nat)
    requires 1 <= |line| && n <= |key| && PrefixMatches(line, key, n)
    requires forall k :: 0 <= k < n ==> key[k] != ','
    ensures var c := FirstFrom(line, ',', 0, |line| - 1);
              c == |line| - 1 || c >= n
  {
    assert forall k :: 0 <= k < n ==> line[k] == line[..n][k];
  }

  /** So a key line's first comma lies past the compared characters, unless
      it is missing. */
  lemma KeyHasNoComma(line: seq<char>)
    requires Classify(line) != Other
    ensures var c := FirstFrom(line, ',', 0, |line| - 1);
              c == |line| - 1 || c >= (if Classify(line) == Location then 22 else 24)
  {
    KeysHaveNoComma();
    match Classify(line)
    case Location => CommaPastKey(line, LocationKey, 22);
    case DeviceName => CommaPastKey(line, DeviceKey, 24);
    case CameraName => CommaPastKey(line, CameraKey, 24);
  }

  /** A prefix of at least `n` characters matches a key on `n` characters
      exactly when the whole line does. */
  lemma PrefixMatchesCut(line: seq<char>, m: nat, lit: seq<char>, n: nat)
    requires n <= m <= |line| && n <= |lit|
    ensures PrefixMatches(line[..m], lit, n) == PrefixMatches(line, lit, n)
  {
    assert line[..m][..n] == line[..n];
  }

  /** Cutting a key line after its value keeps its key. */
  lemma CutKeepsKey(line: seq<char>, m: nat)
    requires Classify(line) != Other && m <= |line|
    requires m >= (if Classify(line) == Location then 22 else 24)
    ensures Classify(line[..m]) == Classify(line)
  {
    PrefixMatchesCut(line, m, LocationKey, 22);
    if Classify(line) != Location {
      PrefixMatchesCut(line, m, DeviceKey, 24);
      PrefixMatchesCut(line, m, CameraKey, 24);
    }
  }

  /** Cutting a line after its first quote past its first comma keeps
      where its value starts. */
  lemma CutKeepsStart(line: seq<char>, j: nat, c: nat, q: nat)
    requires j < |line| && c == FirstFrom(line, ',', 0, |line| - 1)
    requires q == FirstFrom(line, '"', c, |line| - 1) && q < j
    ensures ValueStart(line[..j + 1]) == q + 1
  {
    var u := line[..j + 1];
    assert forall k :: 0 <= k <= j ==> u[k] == line[k];
    FirstFromIs(u, ',', 0, j, c);
    FirstFromIs(u, '"', c, j, q);
  }

  /** Cutting a line just after an alphanumeric character `j` keeps the
      value that ends there. */
  lemma CutKeepsEnd(line: seq<char>, s: nat, j: nat)
    requires s <= j < |line| && (j > s ==> IsAlnum(line[j]))
    ensures LastAlnumAbove(line[..j + 1], s, j) == j
  {
    if j > s {
      LastAlnumIs(line[..j + 1], s, j, j);
    }
  }

  /** Cutting any line after its value keeps the value. */
  lemma CutKeepsValue(line: seq<char>)
    requires |line| >= 1
    ensures InstanceValue(line[..ValueEnd(line) + 1]) == InstanceValue(line)
  {
    var j := ValueEnd(line);
    var u := line[..j + 1];
    if j < |line| - 1 {
      var c := FirstFrom(line, ',', 0, |line| - 1);
      var q := FirstFrom(line, '"', c, |line| - 1);
      var s := q + 1;
      CutKeepsStart(line, j, c, q);
      CutKeepsEnd(line, s, j);
      assert u[s..j + 1] == line[s..j + 1];
    } else {
      assert u == line;
    }
  }

  /** Cutting a key line after its value keeps its key: the value ends past
      the first comma, which lies past the compared characters. */
  lemma CutKeepsClass(line: seq<char>)
    requires Classify(line) != Other
    ensures Classify(line[..ValueEnd(line) + 1]) == Classify(line)
  {
    var j := ValueEnd(line);
    if j < |line| - 1 {
      KeyHasNoComma(line);
      CutKeepsKey(line, j + 1);
    } else {
      assert line[..j + 1] == line;
    }
  }

  /** The C string the truncated buffer holds is the line cut after its
      value. */
  lemma CStrOfTruncated(l: seq<char>)
    requires Classify(CStr(l)) != Other
    ensures CStr(Truncated(l)) == CStr(l)[..ValueEnd(CStr(l)) + 1]
  {
    var line := CStr(l);
    var u := line[..ValueEnd(line) + 1];
    assert Truncated(l) == u + [Nul];
    NoNulPrefix(line, ValueEnd(line) + 1);
    CStrCut(u);
  }

  lemma NoNulPrefix(t: seq<char>, m: nat)
    requires NoNul(t) && m <= |t|
    ensures NoNul(t[..m])
  {
    assert forall k :: 0 <= k < m ==> t[..m][k] == t[k];
  }

  /** What the extra pass absorbs: the truncated line restates the setting
      the line itself just made. */
  lemma AbsorbTruncated(f: Settings, l: seq<char>)
    ensures Absorb(Absorb(f, l), Truncated(l)) == Absorb(f, l)
  {
    var line := CStr(l);
    if Classify(line) != Other {
      CStrOfTruncated(l);
      CutKeepsValue(line);
      CutKeepsClass(line);
      AbsorbSame(Absorb(f, l), Truncated(l), line);
    }
  }

  /** A key line whose C string has the same key and value as `line`
      restates what absorbing `line` set. */
  lemma AbsorbSame(f: Settings, raw: seq<char>, line: seq<char>)
    requires Classify(line) != Other && Slot(f, Classify(line)) == Some(InstanceValue(line))
    requires Classify(CStr(raw)) == Classify(line) && InstanceValue(CStr(raw)) == InstanceValue(line)
    ensures Absorb(f, raw) == f
  {
  }

  /** When the last `fgets` that stores text stops short of end-of-file (at
      a final newline, or with a last line that exactly fills its limit),
      the next one reads nothing and leaves the buffer as the previous pass
      left it, cut after its value, and the loop handles that text once
      more; that changes no setting, whatever the last text is. */
  lemma RepeatedLastLineHarmless(ls: seq<seq<char>>, l: seq<char>)
    ensures Collect(ls + [l, Truncated(l)]) == Collect(ls + [l])
  {
    assert ls + [l, Truncated(l)] == (ls + [l]) + [Truncated(l)];
    CollectSnoc(ls + [l], Truncated(l));
    CollectSnoc(ls, l);
    AbsorbTruncated(Collect(ls), l);
  }

  /* ---------------------------------------------------------------------
     The instance descriptor
     --------------------------------------------------------------------- */

  /** What `new Ioc(stagePath, instanceName, deviceName, prefix)` is given. */
  datatype Descriptor = Descriptor(stagePath: seq<char>, instanceName: seq<char>,
                                   deviceName: seq<char>, prefix: seq<char>)

  /** No descriptor unless all three settings were found; the prefix is
      `"%s:%s:"` of location and device, the device name is the camera
      name. */
  function Assemble(stagePath: seq<char>, instanceName: seq<char>, f: Settings): (r: Option<Descriptor>)
  {
    if f.location.Some? && f.device.Some? && f.camera.Some? then
      Some(Descriptor(stagePath, instanceName, f.camera.value,
                      f.location.value + ":" + f.device.value + ":"))
    else None
  }

  /** What `fopen` and `fgets` deliver for an `instance.cmd` file. */
  datatype FileText =
    | Unreadable                     // fopen() failed
    | ReadError                      // ferror() after some line
    | Text(lines: seq<seq<char>>)    // the texts fgets stored, in order

  /** The descriptor `parseInstanceFile(dirPath, …)` adds, if any. */
  function Describe(dirPath: seq<char>, text: FileText): Option<Descriptor>
  {
    match text
    case Text(ls) => Assemble(StagePath(dirPath), Basename(dirPath), Collect(ls))
    case _ => None
  }

  /** A descriptor is produced exactly when the file reads cleanly and each
      of the three keys occurs; its prefix and device name are the values of
      the last lines carrying them. */
  lemma DescribeSpec(dirPath: seq<char>, ls: seq<seq<char>>, li: nat, di: nat, ci: nat)
    ensures Describe(dirPath, Text(ls)).Some? <==>
              (exists i :: 0 <= i < |ls| && MatchesAt(ls, i, Location)) &&
              (exists i :: 0 <= i < |ls| && MatchesAt(ls, i, DeviceName)) &&
              (exists i :: 0 <= i < |ls| && MatchesAt(ls, i, CameraName))
    ensures LastMatch(ls, li, Location) && LastMatch(ls, di, DeviceName) && LastMatch(ls, ci, CameraName) ==>
              Describe(dirPath, Text(ls)) ==
                Some(Descriptor(StagePath(dirPath), Basename(dirPath), InstanceValue(CStr(ls[ci])),
                                InstanceValue(CStr(ls[li])) + ":" + InstanceValue(CStr(ls[di])) + ":"))
  {
    MissingIffNoMatch(ls, Location);
    MissingIffNoMatch(ls, DeviceName);
    MissingIffNoMatch(ls, CameraName);
    if LastMatch(ls, li, Location) && LastMatch(ls, di, DeviceName) && LastMatch(ls, ci, CameraName) {
      LastMatchWins(ls, li, Location);
      LastMatchWins(ls, di, DeviceName);
      LastMatchWins(ls, ci, CameraName);
    }
  }

  /* ---------------------------------------------------------------------
     Paths: `snprintf("%s/%s")`, and POSIX `dirname`/`basename`.
     --------------------------------------------------------------------- */

  function Join(dir: seq<char>, name: seq<char>): seq<char>
  {
    dir + "/" + name
  }

  /** A directory entry name: not empty, no slash. */
  predicate IsName(n: seq<char>)
  {
    n != [] && forall k :: 0 <= k < |n| ==> n[k] != '/'
  }

  function TrimSlashes(p: seq<char>): (r: seq<char>)
    ensures r <= p
    ensures r == [] || r[|r| - 1] != '/'
    ensures forall k :: |r| <= k < |p| ==> p[k] == '/'
  {
    if p != [] && p[|p| - 1] == '/' then TrimSlashes(p[..|p| - 1]) else p
  }

  function LastSlash(p: seq<char>): (r: int)
    ensures -1 <= r < |p|
    ensures r >= 0 ==> p[r] == '/'
    ensures forall k :: r < k < |p| ==> p[k] != '/'
  {
    if p == [] then -1 else if p[|p| - 1] == '/' then |p| - 1 else LastSlash(p[..|p| - 1])
  }

  /** POSIX `dirname`: the path without its last component and the slashes
      before it; "." when there is no slash, "/" when only the root is left. */
  function Dirname(p: seq<char>): (r: seq<char>)
    ensures r != []
  {
    if p == [] then "."
    else
      var t := TrimSlashes(p);
      if t == [] then "/"
      else
        var i := LastSlash(t);
        if i < 0 then "."
        else
          var h := TrimSlashes(t[..i]);
          if h == [] then "/" else h
  }

  /** POSIX `basename`: the last component, trailing slashes ignored. */
  function Basename(p: seq<char>): (r: seq<char>)
    ensures r != []
    ensures r == "/" || forall k :: 0 <= k < |r| ==> r[k] != '/'
  {
    if p == [] then "."
    else
      var t := TrimSlashes(p);
      if t == [] then "/" else t[LastSlash(t) + 1..]
  }

  /** `dirname(dirname(path))`. */
  function StagePath(p: seq<char>): seq<char>
  {
    Dirname(Dirname(p))
  }

  /** Joining a name to a directory that does not end in a slash is undone
      by `dirname` and `basename`. */
  lemma JoinSplits(dir: seq<char>, name: seq<char>)
    requires dir != [] && dir[|dir| - 1] != '/'
    requires IsName(name)
    ensures Dirname(Join(dir, name)) == dir
    ensures Basename(Join(dir, name)) == name
  {
    var p := Join(dir, name);
    assert p[|p| - 1] == name[|name| - 1];
    assert TrimSlashes(p) == p;
    assert forall k :: |dir| < k < |p| ==> p[k] == name[k - |dir| - 1];
    assert p[|dir|] == '/';
    assert LastSlash(p) == |dir|;
    assert p[..|dir|] == dir;
    assert p[|dir| + 1..] == name;
  }

  /** For an instance directory `<stage>/<ioc>/<instance>` below a stage
      path that does not end in a slash, the stage path is recovered and the
      instance name is the directory's own name. */
  lemma InstancePathNames(stagePath: seq<char>, ioc: seq<char>, inst: seq<char>)
    requires stagePath != [] && stagePath[|stagePath| - 1] != '/'
    requires IsName(ioc) && IsName(inst)
    ensures StagePath(Join(Join(stagePath, ioc), inst)) == stagePath
    ensures Basename(Join(Join(stagePath, ioc), inst)) == inst
  {
    var ip := Join(stagePath, ioc);
    assert ip[|ip| - 1] == ioc[|ioc| - 1];
    JoinSplits(ip, inst);
    JoinSplits(stagePath, ioc);
  }
}
