/** Route memos: the action grammar the destination parses and the policy the source enforces. */
module RouteAction {
  import opened Base
  import opened Text
  import opened Attestations

  datatype RouteAction = RouteAction(kind: string, targetDenom: string, minOut: string, recipient: string, path: string)

  datatype ActionError =
    | MissingTarget(kind: string)
    | EmptyOption(kind: string)
    | InvalidOption(kind: string, option: string)
    | DuplicateOption(kind: string, key: string)
    | UnsupportedOption(kind: string, key: string)
    | UnsupportedAction(kind: string)

  datatype Memo = NoAction | Bad(error: ActionError) | Do(action: RouteAction)

  // ---- the grammar ---------------------------------------------------------------------

  /** `key=value`, both trimmed and non-empty. */
  datatype OptionText = NotAnOption | OptionText(key: string, value: string)

  function ReadOption(part: string): OptionText {
    var eq := Find(part, '=');
    if eq == |part| then NotAnOption
    else
      var key, value := Trim(part[..eq]), Trim(part[eq + 1..]);
      if key == "" || value == "" then NotAnOption else OptionText(key, value)
  }

  function SetOption(a: RouteAction, key: string, value: string): RouteAction {
    if key == "min_out" then a.(minOut := value)
    else if key == "recipient" then a.(recipient := value)
    else a.(path := value)
  }

  predicate KnownOption(kind: string, key: string) {
    key == "recipient" || key == "path" || (key == "min_out" && kind == "swap")
  }

  /** What one option part does to the action so far. */
  function ApplyOption(a: RouteAction, seen: set<string>, part0: string): (r: (Memo, set<string>))
    ensures r.0.Do? ==> r.0.action.kind == a.kind && r.0.action.targetDenom == a.targetDenom
    ensures !r.0.NoAction?
  {
    var part := Trim(part0);
    if part == "" then (Bad(EmptyOption(a.kind)), seen)
    else match ReadOption(part)
      case NotAnOption => (Bad(InvalidOption(a.kind, part)), seen)
      case OptionText(key, value) =>
        if key in seen then (Bad(DuplicateOption(a.kind, key)), seen)
        else if !KnownOption(a.kind, key) then (Bad(UnsupportedOption(a.kind, key)), seen)
        else (Do(SetOption(a, key, value)), seen + {key})
  }

  function ApplyOptions(a: RouteAction, seen: set<string>, parts: seq<string>): (r: Memo)
    ensures r.Do? ==> r.action.kind == a.kind && r.action.targetDenom == a.targetDenom
    ensures !r.NoAction?
    decreases |parts|
  {
    if parts == [] then Do(a)
    else
      var (m, seen') := ApplyOption(a, seen, parts[0]);
      if m.Do? then ApplyOptions(m.action, seen', parts[1..]) else m
  }

  /** `parseRouteAction`. */
  function ParseMemo(memo0: string): Memo {
    var memo := Trim(memo0);
    if memo == "" then NoAction
    else
      var parts := Split(memo, ':');
      var kind := Trim(parts[0]);
      if |parts| == 1 then (if kind == "swap" then Bad(MissingTarget("swap")) else NoAction)
      else if kind != "swap" && kind != "stake" then Bad(UnsupportedAction(kind))
      else if Trim(parts[1]) == "" then Bad(MissingTarget(kind))
      else ApplyOptions(RouteAction(kind, Trim(parts[1]), "", "", ""), {}, parts[2..])
  }

  /** The parser with its loop over options and its `seen` map. */
  method ParseRouteAction(memo0: string) returns (r: Memo)
    ensures r == ParseMemo(memo0)
  {
    hide Trim, Split, ReadOption;
    var memo := Trim(memo0);
    if memo == "" { return NoAction; }
    var parts := Split(memo, ':');
    var kind := Trim(parts[0]);
    if |parts| == 1 {
      return if kind == "swap" then Bad(MissingTarget("swap")) else NoAction;
    }
    if kind != "swap" && kind != "stake" { return Bad(UnsupportedAction(kind)); }
    var target := Trim(parts[1]);
    if target == "" { return Bad(MissingTarget(kind)); }
    var action := RouteAction(kind, target, "", "", "");
    var seen: set<string> := {};
    var options := parts[2..];
    for i := 0 to |options|
      invariant action.kind == kind
      invariant ParseMemo(memo0) == ApplyOptions(action, seen, options[i..])
    {
      assert options[i..][1..] == options[i + 1..];
      var part := Trim(options[i]);
      if part == "" { return Bad(EmptyOption(kind)); }
      var option := ReadOption(part);
      if option.NotAnOption? { return Bad(InvalidOption(kind, part)); }
      if option.key in seen { return Bad(DuplicateOption(kind, option.key)); }
      seen := seen + {option.key};
      if !KnownOption(kind, option.key) { return Bad(UnsupportedOption(kind, option.key)); }
      action := SetOption(action, option.key, option.value);
    }
    assert options[|options|..] == [];
    r := Do(action);
  }

  // ---- the policy --------------------------------------------------------------------------

  datatype RoutePolicy = RoutePolicy(memoPrefixes: seq<string>, actionTypes: seq<string>)

  function CanonicalPolicy(p: RoutePolicy): RoutePolicy {
    RoutePolicy(Trimmed(p.memoPrefixes), Trimmed(p.actionTypes))
  }

  function ActionType(memo: string): string {
    var m := Trim(memo);
    if m == "" then "" else Trim(m[..Find(m, ':')])
  }

  predicate AllowsAction(p: RoutePolicy, memo: string) {
    p.actionTypes == [] || ActionType(memo) == "" || ActionType(memo) in CanonicalPolicy(p).actionTypes
  }

  predicate AllowsMemo(p: RoutePolicy, memo: string) {
    var m := Trim(memo);
    p.memoPrefixes == []
    || exists i | 0 <= i < |p.memoPrefixes| ::
         var prefix := CanonicalPolicy(p).memoPrefixes[i];
         if prefix == "" then m == "" else prefix <= m
  }

  /**
    What a policy lets through: a memo whose type, up to its first colon, is blank or listed, if there is a list,
    and which starts with a listed prefix, if there are any; a blank prefix stands for the blank memo.
   */
  predicate Permits(p: RoutePolicy, memo: string) {
    var m := Trim(memo);
    && (p.actionTypes == [] || m == "" || Trim(m[..Find(m, ':')]) == ""
        || exists i | 0 <= i < |p.actionTypes| :: Trim(p.actionTypes[i]) == Trim(m[..Find(m, ':')]))
    && (p.memoPrefixes == [] || exists i | 0 <= i < |p.memoPrefixes| ::
          && Trim(p.memoPrefixes[i]) <= m && (Trim(p.memoPrefixes[i]) == "" ==> m == ""))
  }

  lemma PermitsExact(p: RoutePolicy, memo: string)
    ensures Permits(p, memo) <==> AllowsAction(p, memo) && AllowsMemo(p, memo)
  {
    hide Trim, Find;
    var q := CanonicalPolicy(p);
    var kind := ActionType(memo);
    assert kind in q.actionTypes <==> exists i | 0 <= i < |p.actionTypes| :: Trim(p.actionTypes[i]) == kind by {
      if i :| 0 <= i < |p.actionTypes| && Trim(p.actionTypes[i]) == kind { assert q.actionTypes[i] == kind; }
    }
  }

  /** Whenever the destination finds an action at all, it is of the type the source policy looked at. */
  lemma ParsedKind(memo: string)
    ensures ParseMemo(memo).Do? ==>
      ParseMemo(memo).action.kind == ActionType(memo) && (ActionType(memo) == "swap" || ActionType(memo) == "stake")
    ensures ParseMemo(memo).Do? && ActionType(memo) == "stake" ==> ParseMemo(memo).action.minOut == ""
    ensures ParseMemo(Trim(memo)) == ParseMemo(memo) && ActionType(Trim(memo)) == ActionType(memo)
  {
    TrimTwice(memo);
    hide Trim, Split;
    var m := Trim(memo);
    if m != "" {
      var parts := Split(m, ':');
      var kind := Trim(parts[0]);
      if |parts| > 1 && kind == "stake" && Trim(parts[1]) != "" {
        StakeHasNoMinimum(RouteAction(kind, Trim(parts[1]), "", "", ""), {}, parts[2..]);
      }
    }
  }

  lemma {:induction false} StakeHasNoMinimum(a: RouteAction, seen: set<string>, parts: seq<string>)
    requires a.kind == "stake" && a.minOut == ""
    ensures ApplyOptions(a, seen, parts).Do? ==> ApplyOptions(a, seen, parts).action.minOut == ""
    decreases |parts|
  {
    hide Trim, ReadOption;
    if parts != [] {
      var (m, seen') := ApplyOption(a, seen, parts[0]);
      if m.Do? {
        StakeHasNoMinimum(m.action, seen', parts[1..]);
      }
    }
  }

  /**
    For every memo string: when a profile with a non-empty action list lets the memo through, the
    destination's parser, run on the stored memo, yields an action only of a listed type.
   */
  lemma PolicyReachesDestination(p: RoutePolicy, memo: string)
    requires p.actionTypes != [] && AllowsAction(p, memo)
    ensures ParseMemo(Trim(memo)).Do? ==> ParseMemo(Trim(memo)).action.kind in CanonicalPolicy(p).actionTypes
  {
    hide Trim;
    ParsedKind(memo);
  }

  // ---- memos as they are written ----------------------------------------------------------------------

  /** A value as it stands between the colons of a memo. */
  predicate Clean(s: string) {
    s != "" && Trim(s) == s && ':' !in s
  }

  lemma OptionReads(key: string, value: string)
    requires Clean(key) && '=' !in key && Clean(value)
    ensures ReadOption(key + "=" + value) == OptionText(key, value)
  {
    var part := key + "=" + value;
    FindAt(key, '=', value);
    hide Trim, Find;
    assert part == key + ['='] + value;
    assert part[..|key|] == key && part[|key| + 1..] == value;
  }

  /** One written option sets its field, unless its key came before. */
  lemma OptionApplies(a: RouteAction, seen: set<string>, key: string, value: string)
    requires Clean(value) && KnownOption(a.kind, key) && key !in seen
    requires Trim(key + "=" + value) == key + "=" + value
    ensures ApplyOption(a, seen, key + "=" + value) == (Do(SetOption(a, key, value)), seen + {key})
  {
    SolidEndsTrim(key);
    OptionReads(key, value);
    hide Trim, ReadOption;
  }

  lemma TrimmedPair(key: string, value: string)
    requires key != "" && Solid(key[0]) && Clean(value)
    ensures Trim(key + "=" + value) == key + "=" + value
  {
    var s := key + "=" + value;
    assert SpaceBefore(value) == 0;
    assert SpaceBefore(s) == 0 by { NoSpaceAfterSolid(key, value); }
    TrimFixed(s);
  }

  lemma NoSpaceAfterSolid(key: string, value: string)
    requires value != "" && SpaceBefore(value) == 0
    ensures SpaceBefore(key + "=" + value) == 0
  {
    var s := key + "=" + value;
    assert forall i | 0 <= i < |value| :: s[|key| + 1 + i] == value[i];
    assert s[|key|] == '=';
  }

  /** How an action is written: its target, then its options, of which only a swap has a minimum. */
  function WrittenOptions(a: RouteAction): string {
    (if a.kind == "swap" then "min_out=" + a.minOut + ":" else "")
      + ("recipient=" + a.recipient + ":" + ("path=" + a.path))
  }

  function Written(a: RouteAction): string {
    a.kind + ":" + (a.targetDenom + ":" + WrittenOptions(a))
  }

  /** The written form of a swap or a stake reads back as that action, every field in its place. */
  lemma MemoReads(a: RouteAction)
    requires a.kind == "swap" || (a.kind == "stake" && a.minOut == "")
    requires Clean(a.targetDenom) && Clean(a.recipient) && Clean(a.path) && (a.kind == "swap" ==> Clean(a.minOut))
    ensures ParseMemo(Written(a)) == Do(a)
  {
    hide Trim, Split, ApplyOptions, Written, WrittenOptions, ParseMemo;
    var parts := (if a.kind == "swap" then ["min_out=" + a.minOut] else [])
      + ["recipient=" + a.recipient, "path=" + a.path];
    var start := RouteAction(a.kind, a.targetDenom, "", "", "");
    WrittenTrimmed(a);
    WrittenSplits(a, parts);
    SolidEndsTrim(a.kind);
    ParsesAs(Written(a), a.kind, a.targetDenom, parts);
    if a.kind == "swap" {
      ReadsSwap(start, a.minOut, a.recipient, a.path);
      assert parts == ["min_out=" + a.minOut, "recipient=" + a.recipient, "path=" + a.path];
    } else {
      ReadsStake(start, {}, a.recipient, a.path);
      assert parts == ["recipient=" + a.recipient, "path=" + a.path];
    }
  }

  lemma ParsesAs(memo: string, kind: string, target: string, parts: seq<string>)
    requires Trim(memo) == memo != "" && Split(memo, ':') == [kind, target] + parts
    requires (kind == "swap" || kind == "stake") && Trim(kind) == kind && Trim(target) == target != ""
    ensures ParseMemo(memo) == ApplyOptions(RouteAction(kind, target, "", "", ""), {}, parts)
  {
    hide Trim, Split, ApplyOptions;
    var all := Split(memo, ':');
    assert all[0] == kind && all[1] == target && all[2..] == parts;
  }

  lemma WrittenTrimmed(a: RouteAction)
    requires (a.kind == "swap" || a.kind == "stake") && Clean(a.path)
    ensures Trim(Written(a)) == Written(a) != ""
  {
    var options := WrittenOptions(a);
    assert options[|options| - 5 - |a.path|..] == "path=" + a.path;
    MemoTrimmed(a.kind, a.targetDenom, options, a.path);
  }

  lemma SplitsAt(front: string, rest: string)
    requires ':' !in front
    ensures Split(front + ":" + rest, ':') == [front] + Split(rest, ':') && Split(front, ':') == [front]
  {
    FindAt(front, ':', rest);
    assert [':'] == ":";
    hide Split, Find;
  }

  lemma WrittenSplits(a: RouteAction, parts: seq<string>)
    requires a.kind == "swap" || a.kind == "stake"
    requires Clean(a.targetDenom) && Clean(a.recipient) && Clean(a.path) && (a.kind == "swap" ==> Clean(a.minOut))
    requires parts == (if a.kind == "swap" then ["min_out=" + a.minOut] else [])
      + ["recipient=" + a.recipient, "path=" + a.path]
    ensures Split(Written(a), ':') == [a.kind, a.targetDenom] + parts
  {
    hide Split, Trim;
    var fourth, fifth := "recipient=" + a.recipient, "path=" + a.path;
    SplitsAt(fifth, "");
    SplitsAt(fourth, fifth);
    var tail := fourth + ":" + fifth;
    assert Split(tail, ':') == [fourth, fifth];
    if a.kind == "swap" {
      var third := "min_out=" + a.minOut;
      SplitsAt(third, tail);
      assert WrittenOptions(a) == third + ":" + tail;
      assert Split(WrittenOptions(a), ':') == parts;
    } else {
      assert WrittenOptions(a) == tail;
    }
    SplitsAt(a.targetDenom, WrittenOptions(a));
    SplitsAt(a.kind, a.targetDenom + ":" + WrittenOptions(a));
  }

  lemma MemoTrimmed(kind: string, target: string, options: string, path: string)
    requires (kind == "swap" || kind == "stake") && Clean(path)
    requires |options| > 5 + |path| && options[|options| - 5 - |path|..] == "path=" + path
    ensures var memo := kind + ":" + (target + ":" + options); Trim(memo) == memo
  {
    var memo := kind + ":" + (target + ":" + options);
    var front := memo[..|memo| - 1 - |path|];
    assert memo == front + "=" + path;
    NoSpaceAfterSolid(front, path);
    TrimFixed(memo);
  }

  lemma NextOption(a: RouteAction, seen: set<string>, key: string, value: string, rest: seq<string>)
    requires Clean(value) && KnownOption(a.kind, key) && key !in seen
    ensures ApplyOptions(a, seen, [key + "=" + value] + rest)
      == ApplyOptions(SetOption(a, key, value), seen + {key}, rest)
  {
    TrimmedPair(key, value);
    OptionApplies(a, seen, key, value);
    hide Trim, ApplyOption;
    var parts := [key + "=" + value] + rest;
    assert parts[1..] == rest;
  }

  lemma ReadsStake(a: RouteAction, seen: set<string>, recipient: string, path: string)
    requires Clean(recipient) && Clean(path) && "recipient" !in seen && "path" !in seen
    ensures ApplyOptions(a, seen, ["recipient=" + recipient, "path=" + path])
      == Do(a.(recipient := recipient, path := path))
  {
    hide Clean, ApplyOption;
    NextOption(a, seen, "recipient", recipient, ["path=" + path]);
    NextOption(a.(recipient := recipient), seen + {"recipient"}, "path", path, []);
    var x, y := "recipient=" + recipient, "path=" + path;
    assert "recipient" + "=" == "recipient=" && "path" + "=" == "path=";
    assert [x] + [y] == [x, y] && [y] + [] == [y];
  }

  lemma ReadsSwap(a: RouteAction, minOut: string, recipient: string, path: string)
    requires a.kind == "swap" && Clean(minOut) && Clean(recipient) && Clean(path)
    ensures ApplyOptions(a, {}, ["min_out=" + minOut, "recipient=" + recipient, "path=" + path])
      == Do(a.(minOut := minOut, recipient := recipient, path := path))
  {
    hide Clean, ApplyOptions;
    var rest := ["recipient=" + recipient, "path=" + path];
    NextOption(a, {}, "min_out", minOut, rest);
    assert "min_out" + "=" == "min_out=";
    ReadsStake(a.(minOut := minOut), {} + {"min_out"}, recipient, path);
    assert ["min_out=" + minOut] + rest == ["min_out=" + minOut, "recipient=" + recipient, "path=" + path];
  }

  // ---- exactly what a memo means -----------------------------------------------------------------------

  /** The value of the option with this key among the parts read so far; blank when there is none. */
  ghost predicate Gives(parts: seq<string>, key: string, value: string) {
    if i :| 0 <= i < |parts| && ReadOption(Trim(parts[i])).OptionText? && ReadOption(Trim(parts[i])).key == key
    then value == ReadOption(Trim(parts[i])).value else value == ""
  }

  /** Every part is an option this kind knows, and no key comes twice. */
  ghost predicate WellFormed(kind: string, parts: seq<string>) {
    && (forall i | 0 <= i < |parts| ::
         && Trim(parts[i]) != "" && ReadOption(Trim(parts[i])).OptionText?
         && KnownOption(kind, ReadOption(Trim(parts[i])).key))
    && (forall i, j | 0 <= i < j < |parts| && ReadOption(Trim(parts[i])).OptionText?
           && ReadOption(Trim(parts[j])).OptionText? ::
         ReadOption(Trim(parts[i])).key != ReadOption(Trim(parts[j])).key)
  }

  /** The memo is a kind, a target and well-formed options, and the action says just that. */
  ghost predicate Means(memo: string, a: RouteAction) {
    var parts := Split(Trim(memo), ':');
    && Trim(memo) != "" && |parts| >= 2
    && (Trim(parts[0]) == "swap" || Trim(parts[0]) == "stake") && Trim(parts[1]) != ""
    && WellFormed(Trim(parts[0]), parts[2..])
    && a.kind == Trim(parts[0]) && a.targetDenom == Trim(parts[1])
    && Gives(parts[2..], "min_out", a.minOut) && Gives(parts[2..], "recipient", a.recipient)
    && Gives(parts[2..], "path", a.path)
  }

  function KeyOf(part: string): string {
    var o := ReadOption(Trim(part));
    if o.OptionText? then o.key else ""
  }

  function KeysOf(parts: seq<string>): set<string> {
    set i | 0 <= i < |parts| :: KeyOf(parts[i])
  }

  /** The action after these options, starting from one without any. */
  function Reading(start: RouteAction, parts: seq<string>): RouteAction {
    if parts == [] then start
    else
      var last := ReadOption(Trim(parts[|parts| - 1]));
      var before := Reading(start, parts[..|parts| - 1]);
      if last.OptionText? then SetOption(before, last.key, last.value) else before
  }

  lemma WellFormedNext(kind: string, done: seq<string>, part: string)
    requires WellFormed(kind, done)
    ensures WellFormed(kind, done + [part]) <==>
      && Trim(part) != "" && ReadOption(Trim(part)).OptionText? && KnownOption(kind, ReadOption(Trim(part)).key)
      && ReadOption(Trim(part)).key !in KeysOf(done)
    ensures KeysOf(done + [part]) == KeysOf(done) + {KeyOf(part)}
  {
    hide Trim, ReadOption;
    var more := done + [part];
    assert forall i | 0 <= i < |done| :: more[i] == done[i];
    assert more[|done|] == part;
    if ReadOption(Trim(part)).OptionText? && ReadOption(Trim(part)).key in KeysOf(done) {
      var i :| 0 <= i < |done| && KeyOf(done[i]) == ReadOption(Trim(part)).key;
      assert more[i] == done[i] && more[|done|] == part;
    }
  }

  lemma WellFormedFront(kind: string, done: seq<string>, rest: seq<string>)
    requires WellFormed(kind, done + rest)
    ensures WellFormed(kind, done)
  {
    hide Trim, ReadOption, KnownOption;
    assert forall i | 0 <= i < |done| :: (done + rest)[i] == done[i];
  }

  /** The loop over the options succeeds exactly on well-formed ones. */
  lemma {:induction false} OptionsExact(start: RouteAction, done: seq<string>, rest: seq<string>)
    requires WellFormed(start.kind, done)
    ensures ApplyOptions(Reading(start, done), KeysOf(done), rest).Do? <==> WellFormed(start.kind, done + rest)
    ensures WellFormed(start.kind, done + rest) ==>
      ApplyOptions(Reading(start, done), KeysOf(done), rest) == Do(Reading(start, done + rest))
    decreases |rest|
  {
    hide Trim, ReadOption, WellFormed;
    ReadingKind(start, done);
    if rest == [] {
      assert done + rest == done;
    } else {
      var next := done + [rest[0]];
      assert next[..|done|] == done && next + rest[1..] == done + rest;
      WellFormedNext(start.kind, done, rest[0]);
      if WellFormed(start.kind, done + rest) { WellFormedFront(start.kind, next, rest[1..]); }
      if WellFormed(start.kind, next) { OptionsExact(start, next, rest[1..]); }
    }
  }

  lemma {:induction false} ReadingKind(start: RouteAction, parts: seq<string>)
    ensures Reading(start, parts).kind == start.kind && Reading(start, parts).targetDenom == start.targetDenom
  {
    hide Trim, ReadOption;
    if parts != [] { ReadingKind(start, parts[..|parts| - 1]); }
  }

  /** Each field of what was read is what its option gives. */
  lemma {:induction false} ReadingGives(kind: string, target: string, parts: seq<string>)
    requires WellFormed(kind, parts)
    ensures var a := Reading(RouteAction(kind, target, "", "", ""), parts);
      Gives(parts, "min_out", a.minOut) && Gives(parts, "recipient", a.recipient) && Gives(parts, "path", a.path)
  {
    hide Trim, ReadOption;
    if parts != [] {
      var front, last := parts[..|parts| - 1], parts[|parts| - 1];
      assert parts == front + [last];
      WellFormedFront(kind, front, [last]);
      ReadingGives(kind, target, front);
      var o := ReadOption(Trim(last));
      var a := Reading(RouteAction(kind, target, "", "", ""), front);
      GivesNext(kind, front, last, "min_out", a.minOut);
      GivesNext(kind, front, last, "recipient", a.recipient);
      GivesNext(kind, front, last, "path", a.path);
    }
  }

  lemma GivesNext(kind: string, front: seq<string>, last: string, key: string, value: string)
    requires WellFormed(kind, front + [last]) && Gives(front, key, value)
    ensures var o := ReadOption(Trim(last));
      o.OptionText? && Gives(front + [last], key, if o.key == key then o.value else value)
  {
    hide Trim, ReadOption, KnownOption;
    var parts := front + [last];
    assert parts[|front|] == last && forall i | 0 <= i < |front| :: parts[i] == front[i];
  }

  lemma GivesOne(kind: string, parts: seq<string>, key: string, v: string, w: string)
    requires WellFormed(kind, parts) && Gives(parts, key, v) && Gives(parts, key, w)
    ensures v == w
  {
  }

  /** A memo is an action exactly when it means one, and then it is that one. */
  lemma MemoExact(memo: string, a: RouteAction)
    ensures ParseMemo(memo) == Do(a) <==> Means(memo, a)
  {
    hide Trim, Split, ApplyOptions, Gives, WellFormed, Reading;
    var m := Trim(memo);
    if m != "" {
      var parts := Split(m, ':');
      if |parts| >= 2 && (Trim(parts[0]) == "swap" || Trim(parts[0]) == "stake") && Trim(parts[1]) != "" {
        ActionExact(Trim(parts[0]), Trim(parts[1]), parts[2..], a);
      }
    }
  }

  lemma ActionExact(kind: string, target: string, parts: seq<string>, a: RouteAction)
    ensures ApplyOptions(RouteAction(kind, target, "", "", ""), {}, parts) == Do(a) <==>
      && WellFormed(kind, parts) && a.kind == kind && a.targetDenom == target
      && Gives(parts, "min_out", a.minOut) && Gives(parts, "recipient", a.recipient) && Gives(parts, "path", a.path)
  {
    var start := RouteAction(kind, target, "", "", "");
    assert KeysOf([]) == {} && Reading(start, []) == start && [] + parts == parts;
    OptionsExact(start, [], parts);
    hide Trim, ApplyOptions, Gives, WellFormed, Reading;
    if WellFormed(kind, parts) {
      ReadingGives(kind, target, parts);
      ReadingKind(start, parts);
      var b := Reading(start, parts);
      if Gives(parts, "min_out", a.minOut) { GivesOne(kind, parts, "min_out", a.minOut, b.minOut); }
      if Gives(parts, "recipient", a.recipient) { GivesOne(kind, parts, "recipient", a.recipient, b.recipient); }
      if Gives(parts, "path", a.path) { GivesOne(kind, parts, "path", a.path, b.path); }
    }
  }
}
