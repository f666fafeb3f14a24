/** Field-trial strings: the parser against the grammar it accepts, and the trials kept from it. */
module FieldTrials {
  import opened Basics
  import opened TextOrder

  type Trials = map<string, string>

  // ---------------------------------------------------------------- the parser, on values

  /** The position of the first slash, the length if there is none. */
  function SlashPos(s: string): (k: nat)
    ensures k <= |s| && '/' !in s[..k] && (k < |s| ==> s[k] == '/')
  {
    if s == [] || s[0] == '/' then 0 else 1 + SlashPos(s[1..])
  }

  /** The text up to the first slash and what follows it; without a slash nothing, and nothing is consumed. */
  function NextKeyOrValue(s: string): (string, string) {
    var k := SlashPos(s);
    if k == |s| then ("", s) else (s[..k], s[k + 1..])
  }

  lemma NextConsumes(s: string)
    ensures NextKeyOrValue(s).0 != "" ==> |NextKeyOrValue(s).1| < |s|
    ensures |NextKeyOrValue(s).1| <= |s|
  {
  }

  /** None if the string is refused, otherwise the trials with those of the string added. */
  function Parse(s: string, trials: Trials): Option<Trials>
    decreases |s|
  {
    if s == "" then Some(trials)
    else
      var (key, s1) := NextKeyOrValue(s);
      var (value, s2) := NextKeyOrValue(s1);
      if key == "" || value == "" then None
      else if key in trials && trials[key] != value then None
      else
        NextConsumes(s);
        NextConsumes(s1);
        Parse(s2, trials[key := value])
  }

  // ---------------------------------------------------------------- the grammar

  type Piece = (string, string)

  predicate Word(s: string) {
    s != "" && '/' !in s
  }

  predicate WellFormed(pieces: seq<Piece>) {
    forall p :: p in pieces ==> Word(p.0) && Word(p.1)
  }

  /** key/value/ for every piece. */
  function Print(pieces: seq<Piece>): string {
    if pieces == [] then "" else pieces[0].0 + "/" + pieces[0].1 + "/" + Print(pieces[1..])
  }

  /** No key is bound to two values, by the pieces or by the trials already there. */
  predicate Agree(trials: Trials, pieces: seq<Piece>) {
    && (forall p :: p in pieces && p.0 in trials ==> trials[p.0] == p.1)
    && (forall p, q :: p in pieces && q in pieces && p.0 == q.0 ==> p.1 == q.1)
  }

  function Bindings(pieces: seq<Piece>): Trials {
    if pieces == [] then map[] else map[pieces[0].0 := pieces[0].1] + Bindings(pieces[1..])
  }

  // ---------------------------------------------------------------- the parser accepts exactly the grammar

  lemma NextOfWord(w: string, rest: string)
    requires '/' !in w
    ensures NextKeyOrValue(w + "/" + rest) == (w, rest)
  {
    var s := w + "/" + rest;
    var k := SlashPos(s);
    assert s[|w|] == '/';
    assert k == |w|;
    assert s[..k] == w && s[k + 1..] == rest;
  }

  lemma NextIsWord(s: string)
    ensures var (w, rest) := NextKeyOrValue(s);
            w != "" ==> Word(w) && s == w + "/" + rest
  {
    var k := SlashPos(s);
    assert k < |s| ==> s == s[..k] + [s[k]] + s[k + 1..];
  }

  lemma ParsePiece(p: Piece, rest: string, trials: Trials)
    requires Word(p.0) && Word(p.1)
    ensures Parse(p.0 + "/" + p.1 + "/" + rest, trials) ==
            if p.0 in trials && trials[p.0] != p.1 then None else Parse(rest, trials[p.0 := p.1])
  {
    var s1 := p.1 + "/" + rest;
    var s := p.0 + "/" + p.1 + "/" + rest;
    assert s == p.0 + "/" + s1;
    NextOfWord(p.0, s1);
    NextOfWord(p.1, rest);
  }

  lemma {:induction false} ParsePrinted(pieces: seq<Piece>, trials: Trials)
    requires WellFormed(pieces)
    ensures Parse(Print(pieces), trials) == if Agree(trials, pieces) then Some(trials + Bindings(pieces)) else None
    decreases pieces
  {
    if pieces == [] {
      assert trials + map[] == trials;
    } else {
      var p, rest := pieces[0], pieces[1..];
      assert p in pieces;
      ParsePiece(p, Print(rest), trials);
      if !(p.0 in trials && trials[p.0] != p.1) {
        ParsePrinted(rest, trials[p.0 := p.1]);
        AgreeStep(trials, pieces);
        if Agree(trials, pieces) {
          BindingsStep(trials, pieces);
        }
      }
    }
  }

  lemma AgreeStep(trials: Trials, pieces: seq<Piece>)
    requires pieces != [] && (pieces[0].0 in trials ==> trials[pieces[0].0] == pieces[0].1)
    ensures Agree(trials, pieces) <==> Agree(trials[pieces[0].0 := pieces[0].1], pieces[1..])
  {
    assert forall q :: q in pieces <==> q == pieces[0] || q in pieces[1..];
  }

  lemma BindingsStep(trials: Trials, pieces: seq<Piece>)
    requires pieces != [] && Agree(trials, pieces)
    ensures trials[pieces[0].0 := pieces[0].1] + Bindings(pieces[1..]) == trials + Bindings(pieces)
  {
  }

  lemma {:induction false} BindingsOf(pieces: seq<Piece>)
    ensures forall p :: p in pieces ==> p.0 in Bindings(pieces)
    ensures forall k :: k in Bindings(pieces) ==> (k, Bindings(pieces)[k]) in pieces
    ensures Agree(map[], pieces) ==> forall p :: p in pieces ==> Bindings(pieces)[p.0] == p.1
  {
    if pieces == [] {
    } else {
      BindingsOf(pieces[1..]);
      assert forall q :: q in pieces <==> q == pieces[0] || q in pieces[1..];
    }
  }

  /** The pieces an accepted string consists of. */
  lemma PrintOfCons(p: Piece, rest: seq<Piece>)
    ensures Print([p] + rest) == p.0 + "/" + (p.1 + "/" + Print(rest))
  {
    assert ([p] + rest)[1..] == rest;
  }

  lemma {:induction false} AcceptedIsPrinted(s: string, trials: Trials) returns (pieces: seq<Piece>)
    requires Parse(s, trials).Some?
    ensures WellFormed(pieces) && Print(pieces) == s
    decreases |s|
  {
    if s == "" {
      pieces := [];
    } else {
      var (key, s1) := NextKeyOrValue(s);
      var (value, s2) := NextKeyOrValue(s1);
      NextIsWord(s);
      NextIsWord(s1);
      NextConsumes(s);
      NextConsumes(s1);
      var rest := AcceptedIsPrinted(s2, trials[key := value]);
      pieces := [(key, value)] + rest;
      PrintOfCons((key, value), rest);
      assert s == key + "/" + (value + "/" + s2);
    }
  }

  ghost predicate InGrammar(s: string, pieces: seq<Piece>) {
    WellFormed(pieces) && Print(pieces) == s && Agree(map[], pieces)
  }

  /** A string is accepted exactly if it is a concatenation of key/value/ pieces that bind no key twice differently, and
      yields exactly their bindings. */
  lemma ParseAcceptsTheGrammar(s: string)
    ensures Parse(s, map[]).Some? <==> exists pieces :: InGrammar(s, pieces)
    ensures forall pieces :: InGrammar(s, pieces) ==> Parse(s, map[]) == Some(Bindings(pieces))
  {
    if Parse(s, map[]).Some? {
      var pieces := AcceptedIsPrinted(s, map[]);
      ParsePrinted(pieces, map[]);
      assert InGrammar(s, pieces);
    }
    forall pieces | InGrammar(s, pieces)
      ensures Parse(s, map[]) == Some(Bindings(pieces))
    {
      ParsePrinted(pieces, map[]);
      assert map[] + Bindings(pieces) == Bindings(pieces);
    }
  }

  // ---------------------------------------------------------------- printing, concatenation

  predicate ValidTrials(trials: Trials) {
    forall k :: k in trials ==> Word(k) && Word(trials[k])
  }

  /** The pieces list the trials, in any order. */
  predicate Lists(pieces: seq<Piece>, trials: Trials) {
    && (forall p :: p in pieces ==> p.0 in trials && trials[p.0] == p.1)
    && (forall k :: k in trials ==> (k, trials[k]) in pieces)
  }

  lemma PrintedTrialsParseBack(trials: Trials, pieces: seq<Piece>)
    requires ValidTrials(trials) && Lists(pieces, trials)
    ensures Parse(Print(pieces), map[]) == Some(trials)
  {
    ListingBinds(pieces, trials);
    ParsePrinted(pieces, map[]);
    assert map[] + trials == trials;
  }

  lemma ListingBinds(pieces: seq<Piece>, trials: Trials)
    requires Lists(pieces, trials)
    ensures Agree(map[], pieces) && Bindings(pieces) == trials
  {
    BindingsOf(pieces);
    assert Bindings(pieces).Keys == trials.Keys;
  }

  lemma {:induction false} ParseContinues(a: seq<Piece>, t: string, trials: Trials)
    requires WellFormed(a)
    ensures Parse(Print(a) + t, trials) ==
            if Parse(Print(a), trials).None? then None else Parse(t, Parse(Print(a), trials).value)
    decreases a
  {
    if a == [] {
      assert Print(a) + t == t;
    } else {
      var p, rest := a[0], a[1..];
      assert p in a;
      assert Print(a) + t == p.0 + "/" + p.1 + "/" + (Print(rest) + t);
      ParsePiece(p, Print(rest) + t, trials);
      ParsePiece(p, Print(rest), trials);
      if !(p.0 in trials && trials[p.0] != p.1) {
        ParseContinues(rest, t, trials[p.0 := p.1]);
      }
    }
  }

  /** Trials already there must agree with those of an accepted string on the keys they share. */
  lemma ParseOnto(t: string, a: Trials)
    requires Parse(t, map[]).Some?
    ensures var b := Parse(t, map[]).value;
            Parse(t, a) == if forall k :: k in a && k in b ==> a[k] == b[k] then Some(a + b) else None
  {
    var pieces := AcceptedIsPrinted(t, map[]);
    ParsePrinted(pieces, map[]);
    ParsePrinted(pieces, a);
    assert map[] + Bindings(pieces) == Bindings(pieces);
    AgreeWithBindings(a, pieces);
  }

  /** Two accepted strings in a row are accepted exactly if they agree on the keys they share, and give the union. */
  lemma ConcatenationIsUnion(s: string, t: string)
    requires Parse(s, map[]).Some? && Parse(t, map[]).Some?
    ensures var a, b := Parse(s, map[]).value, Parse(t, map[]).value;
            Parse(s + t, map[]) ==
            if forall k :: k in a && k in b ==> a[k] == b[k] then Some(a + b) else None
  {
    var pieces := AcceptedIsPrinted(s, map[]);
    ParseContinues(pieces, t, map[]);
    ParseOnto(t, Parse(s, map[]).value);
  }

  lemma AgreeWithBindings(a: Trials, pieces: seq<Piece>)
    requires Agree(map[], pieces)
    ensures Agree(a, pieces) <==> forall k :: k in a && k in Bindings(pieces) ==> a[k] == Bindings(pieces)[k]
  {
    BindingsOf(pieces);
  }

  // ---------------------------------------------------------------- the printed form for logs

  /** key/value// for every piece, as AbslStringify writes them. */
  function Stringified(pieces: seq<Piece>): string {
    if pieces == [] then "" else pieces[0].0 + "/" + pieces[0].1 + "//" + Stringified(pieces[1..])
  }

  /** The log form of trials is accepted as a field-trial string only if there are none. */
  lemma StringifyNeverParsesBack(trials: Trials, pieces: seq<Piece>)
    requires ValidTrials(trials) && Lists(pieces, trials)
    ensures Parse(Stringified(pieces), map[]).Some? <==> trials == map[]
  {
    if pieces == [] {
      assert forall k :: k !in trials;
    } else {
      var p := pieces[0];
      assert p in pieces;
      var rest := "/" + Stringified(pieces[1..]);
      assert Stringified(pieces) == p.0 + "/" + p.1 + "/" + rest;
      ParsePiece(p, rest, map[]);
      NextOfWord("", Stringified(pieces[1..]));
      assert rest == "" + "/" + Stringified(pieces[1..]);
      assert p.0 in trials;
    }
  }

  // ---------------------------------------------------------------- the trials over their life

  /** How a set of trials came about: from a string, by Set, or by Merge with a set that has a life of its own. */
  datatype Life =
    | Created(text: string)
    | AfterSet(before: Life, trial: string, group: string)
    | AfterMerge(before: Life, other: Life)

  /** Set removes a trial when the group is empty. */
  function SetTrial(trials: Trials, trial: string, group: string): Outcome<Trials> {
    if trial == "" || '/' in trial || '/' in group then CheckFailed
    else if group == "" then Ok(trials - {trial})
    else Ok(trials[trial := group])
  }

  /** Set accepts a named trial and a group without slashes, empty or not; afterwards the trial has that group, or none
      if it is empty, and every other trial is as it was. */
  lemma SetEffect(trials: Trials, trial: string, group: string)
    ensures SetTrial(trials, trial, group).Ok? <==> trial != "" && '/' !in trial && '/' !in group
    ensures SetTrial(trials, trial, group).Ok? ==>
              var trials' := SetTrial(trials, trial, group).value;
              && GroupOf(trials', trial) == group
              && (group == "" ==> trial !in trials')
              && (forall k :: k != trial ==> (k in trials' <==> k in trials))
              && (forall k :: k != trial && k in trials ==> trials'[k] == trials[k])
  {
  }

  /** What looking up a trial gives: its group, the empty string if there is none. */
  function GroupOf(trials: Trials, trial: string): string {
    if trial in trials then trials[trial] else ""
  }

  function TrialsAfter(life: Life): Outcome<Trials> {
    match life
    case Created(text) =>
      var parsed := Parse(text, map[]);
      if parsed.None? then CheckFailed else Ok(parsed.value)
    case AfterSet(before, trial, group) =>
      var trials :- TrialsAfter(before);
      SetTrial(trials, trial, group)
    case AfterMerge(before, other) =>
      var trials :- TrialsAfter(before);
      var others :- TrialsAfter(other);
      Ok(trials + others)
  }

  lemma ParsedTrialsAreValid(s: string)
    requires Parse(s, map[]).Some?
    ensures ValidTrials(Parse(s, map[]).value)
  {
    var pieces := AcceptedIsPrinted(s, map[]);
    ParsePrinted(pieces, map[]);
    BindingsOf(pieces);
    assert map[] + Bindings(pieces) == Bindings(pieces);
  }

  lemma {:induction false} LifeKeepsValid(life: Life)
    requires TrialsAfter(life).Ok?
    ensures ValidTrials(TrialsAfter(life).value)
  {
    match life
    case Created(text) => ParsedTrialsAreValid(text);
    case AfterSet(before, _, _) => LifeKeepsValid(before);
    case AfterMerge(before, other) =>
      LifeKeepsValid(before);
      LifeKeepsValid(other);
  }

  /** Whatever happened to a set of trials, its printed pieces parse back to it and its log form does not, unless it is
      empty. */
  lemma TrialsOfEveryLife(life: Life, pieces: seq<Piece>)
    requires TrialsAfter(life).Ok? && Lists(pieces, TrialsAfter(life).value)
    ensures Parse(Print(pieces), map[]) == Some(TrialsAfter(life).value)
    ensures Parse(Stringified(pieces), map[]).Some? <==> TrialsAfter(life).value == map[]
  {
    LifeKeepsValid(life);
    PrintedTrialsParseBack(TrialsAfter(life).value, pieces);
    StringifyNeverParsesBack(TrialsAfter(life).value, pieces);
  }

  /** The group of a trial, told from the life alone: the last Set that names it decides, or a merged set that has it,
      or the text it all began with. */
  function GroupAfter(life: Life, trial: string): string {
    match life
    case Created(text) => if Parse(text, map[]).Some? then GroupOf(Parse(text, map[]).value, trial) else ""
    case AfterSet(before, name, group) => if name == trial then group else GroupAfter(before, trial)
    case AfterMerge(before, other) =>
      if GroupAfter(other, trial) != "" then GroupAfter(other, trial) else GroupAfter(before, trial)
  }

  lemma {:induction false} GroupsOfEveryLife(life: Life, trial: string)
    requires TrialsAfter(life).Ok?
    ensures GroupOf(TrialsAfter(life).value, trial) == GroupAfter(life, trial)
    ensures trial in TrialsAfter(life).value <==> GroupAfter(life, trial) != ""
  {
    LifeKeepsValid(life);
    match life
    case Created(_) =>
    case AfterSet(before, name, group) =>
      GroupsOfEveryLife(before, trial);
      SetEffect(TrialsAfter(before).value, name, group);
    case AfterMerge(before, other) =>
      GroupsOfEveryLife(before, trial);
      GroupsOfEveryLife(other, trial);
  }

  /** The two forms side by side. */
  lemma PrintedAndLogged()
    ensures Print([("Audio", "Enabled"), ("Video", "x")]) == "Audio/Enabled/Video/x/"
    ensures Stringified([("Audio", "Enabled"), ("Video", "x")]) == "Audio/Enabled//Video/x//"
  {
    var pieces := [("Audio", "Enabled"), ("Video", "x")];
    assert pieces[1..] == [("Video", "x")] && pieces[1..][1..] == [];
  }

  // ---------------------------------------------------------------- the trials as an object

  /** The parse loop; the trials collected so far are returned even when the string is refused. */
  method ParseInto(text: string, trials: Trials) returns (ok: bool, trials': Trials)
    ensures ok <==> Parse(text, trials).Some?
    ensures ok ==> Parse(text, trials) == Some(trials')
  {
    var s := text;
    trials' := trials;
    while s != ""
      invariant Parse(s, trials') == Parse(text, trials)
      decreases |s|
    {
      NextConsumes(s);
      var (key, s1) := NextKeyOrValue(s);
      NextConsumes(s1);
      var (value, s2) := NextKeyOrValue(s1);
      if key == "" || value == "" {
        return false, trials';
      }
      if key !in trials' {
        trials' := trials'[key := value];
      }
      if trials'[key] != value {
        return false, trials';
      }
      assert trials'[key := value] == trials';
      s := s2;
    }
    ok := true;
  }

  class FieldTrialSet {
    var keyValueMap: Trials

    ghost predicate Valid()
      reads this
    {
      ValidTrials(keyValueMap)
    }

    constructor (trials: Trials)
      requires ValidTrials(trials)
      ensures Valid() && keyValueMap == trials
    {
      keyValueMap := trials;
    }

    static method Create(s: string) returns (created: FieldTrialSet?)
      ensures created != null <==> Parse(s, map[]).Some?
      ensures created != null ==> fresh(created) && created.Valid() && Parse(s, map[]) == Some(created.keyValueMap)
    {
      var ok, trials := ParseInto(s, map[]);
      if !ok {
        return null;
      }
      ParsedTrialsAreValid(s);
      created := new FieldTrialSet(trials);
    }

    method Merge(other: FieldTrialSet)
      requires Valid() && other.Valid()
      modifies this
      ensures Valid() && keyValueMap == old(keyValueMap) + old(other.keyValueMap)
    {
      var all := other.keyValueMap;
      var rest := all.Keys;
      ghost var before := keyValueMap;
      while rest != {}
        invariant rest <= all.Keys
        invariant keyValueMap == before + (all - rest)
        decreases |rest|
      {
        var trial :| trial in rest;
        MergedOneMore(before, all, rest, trial);
        keyValueMap := keyValueMap[trial := all[trial]];
        rest := rest - {trial};
      }
      assert all - {} == all;
    }

    /** The result is false where a check would fire. */
    method Set(trial: string, group: string) returns (ok: bool)
      requires Valid()
      modifies this
      ensures Valid()
      ensures ok == SetTrial(old(keyValueMap), trial, group).Ok?
      ensures keyValueMap == if ok then SetTrial(old(keyValueMap), trial, group).value else old(keyValueMap)
      ensures ok ==> GroupOf(keyValueMap, trial) == group
    {
      if trial == "" || '/' in trial || '/' in group {
        return false;
      }
      if group == "" {
        keyValueMap := keyValueMap - {trial};
      } else {
        keyValueMap := keyValueMap[trial := group];
      }
      ok := true;
    }

    method GetValue(key: string) returns (value: string)
      requires Valid()
      ensures key in keyValueMap ==> value == keyValueMap[key]
      ensures value == "" <==> key !in keyValueMap
    {
      value := if key in keyValueMap then keyValueMap[key] else "";
    }

    /** AbslStringify: the map is visited in the order of its keys. */
    method Stringify() returns (sink: string)
      requires Valid()
      ensures exists pieces :: Lists(pieces, keyValueMap) && Increasing(pieces) && sink == Stringified(pieces)
      ensures Parse(sink, map[]).Some? <==> keyValueMap == map[]
    {
      sink := AppendAll(keyValueMap);
      ghost var pieces :| Lists(pieces, keyValueMap) && Increasing(pieces) && sink == Stringified(pieces);
      StringifyNeverParsesBack(keyValueMap, pieces);
    }
  }

  method AppendAll(trials: Trials) returns (sink: string)
    ensures exists pieces :: Lists(pieces, trials) && Increasing(pieces) && sink == Stringified(pieces)
  {
    sink := "";
    ghost var pieces: seq<Piece> := [];
    var rest := trials.Keys;
    NothingWritten(trials);
    while rest != {}
      invariant Written(pieces, trials, rest, sink)
      decreases |rest|
    {
      var trial := NextKey(rest);
      WrittenOneMore(pieces, trials, rest, sink, trial);
      sink := sink + trial + "/" + trials[trial] + "//";
      pieces := pieces + [(trial, trials[trial])];
      rest := rest - {trial};
    }
    AllWritten(pieces, trials, sink);
  }

  /** Where an ordered map's iterator goes next. */
  method NextKey(keys: set<string>) returns (key: string)
    requires keys != {}
    ensures LeastText(key, keys)
  {
    ghost var least := LeastTextExists(keys);
    key :| key in keys && LeastText(key, keys);
  }

  // ---------------------------------------------------------------- the order of a listing

  predicate Increasing(pieces: seq<Piece>) {
    forall i, j :: 0 <= i < j < |pieces| ==> TextLess(pieces[i].0, pieces[j].0)
  }

  predicate AllBefore(pieces: seq<Piece>, rest: set<string>) {
    forall i, k :: 0 <= i < |pieces| && k in rest ==> TextLess(pieces[i].0, k)
  }

  /** What the loop has written once only rest is left to visit. */
  predicate Written(pieces: seq<Piece>, trials: Trials, rest: set<string>, sink: string) {
    && rest <= trials.Keys
    && Lists(pieces, trials - rest) && Increasing(pieces) && AllBefore(pieces, rest)
    && sink == Stringified(pieces)
  }

  lemma NothingWritten(trials: Trials)
    ensures Written([], trials, trials.Keys, "")
  {
  }

  lemma AllWritten(pieces: seq<Piece>, trials: Trials, sink: string)
    requires Written(pieces, trials, {}, sink)
    ensures Lists(pieces, trials) && Increasing(pieces) && sink == Stringified(pieces)
  {
    assert trials - {} == trials;
  }

  lemma WrittenOneMore(pieces: seq<Piece>, trials: Trials, rest: set<string>, sink: string, k: string)
    requires Written(pieces, trials, rest, sink) && LeastText(k, rest)
    ensures Written(pieces + [(k, trials[k])], trials, rest - {k}, sink + k + "/" + trials[k] + "//")
  {
    StringifiedOfOneMore(pieces, (k, trials[k]));
    ListsOneMore(pieces, trials, rest, k);
    IncreasingOneMore(pieces, (k, trials[k]), rest);
  }

  lemma IncreasingOneMore(pieces: seq<Piece>, p: Piece, rest: set<string>)
    requires Increasing(pieces) && AllBefore(pieces, rest) && LeastText(p.0, rest)
    ensures Increasing(pieces + [p]) && AllBefore(pieces + [p], rest - {p.0})
  {
  }

  lemma HeadIsLeast(pieces: seq<Piece>, trials: Trials)
    requires pieces != [] && Lists(pieces, trials) && Increasing(pieces)
    ensures LeastText(pieces[0].0, trials.Keys) && pieces[0] == (pieces[0].0, trials[pieces[0].0])
  {
    assert pieces[0] in pieces;
    forall k | k in trials && k != pieces[0].0
      ensures TextLess(pieces[0].0, k)
    {
      var i :| 0 <= i < |pieces| && pieces[i] == (k, trials[k]);
    }
  }

  lemma EmptyListing(pieces: seq<Piece>, trials: Trials)
    requires Lists(pieces, trials)
    ensures pieces == [] <==> trials == map[]
  {
    if pieces != [] {
      assert pieces[0] in pieces;
    }
  }

  lemma BothEmptyOrNeither(a: seq<Piece>, b: seq<Piece>, trials: Trials)
    requires Lists(a, trials) && Lists(b, trials)
    ensures a == [] <==> b == []
  {
    EmptyListing(a, trials);
    EmptyListing(b, trials);
  }

  lemma SameHeadAndTail(a: seq<Piece>, b: seq<Piece>)
    requires a != [] && b != [] && a[0] == b[0] && a[1..] == b[1..]
    ensures a == b
  {
    assert a == [a[0]] + a[1..] && b == [b[0]] + b[1..];
  }

  lemma SameHeads(a: seq<Piece>, b: seq<Piece>, trials: Trials)
    requires a != [] && b != []
    requires Lists(a, trials) && Lists(b, trials) && Increasing(a) && Increasing(b)
    ensures a[0] == b[0]
    ensures Lists(a[1..], trials - {a[0].0}) && Increasing(a[1..])
    ensures Lists(b[1..], trials - {a[0].0}) && Increasing(b[1..])
  {
    HeadIsLeast(a, trials);
    HeadIsLeast(b, trials);
    LeastTextUnique(a[0].0, b[0].0, trials.Keys);
    ListsOneLess(a, trials);
    ListsOneLess(b, trials);
  }

  /** Trials have one listing in the order of their keys, so their log form is determined. */
  lemma {:induction false} OneListingInOrder(a: seq<Piece>, b: seq<Piece>, trials: Trials)
    requires Lists(a, trials) && Lists(b, trials) && Increasing(a) && Increasing(b)
    ensures a == b
    decreases |a|
  {
    BothEmptyOrNeither(a, b, trials);
    if a == [] {
    } else {
      SameHeads(a, b, trials);
      OneListingInOrder(a[1..], b[1..], trials - {a[0].0});
      SameHeadAndTail(a, b);
    }
  }

  lemma ListsOneLess(pieces: seq<Piece>, trials: Trials)
    requires pieces != [] && Lists(pieces, trials) && Increasing(pieces)
    ensures Lists(pieces[1..], trials - {pieces[0].0}) && Increasing(pieces[1..])
  {
    var head, rest := pieces[0], pieces[1..];
    forall p | p in rest
      ensures p.0 != head.0
    {
      var i :| 0 <= i < |rest| && rest[i] == p;
      assert TextLess(pieces[0].0, pieces[i + 1].0);
      TextIsTotal(head.0, p.0);
    }
    assert forall p :: p in pieces <==> p == head || p in rest;
  }

  lemma MergedOneMore(before: Trials, all: Trials, rest: set<string>, k: string)
    requires k in rest && rest <= all.Keys
    ensures (before + (all - rest))[k := all[k]] == before + (all - (rest - {k}))
  {
  }

  lemma ListsOneMore(pieces: seq<Piece>, trials: Trials, rest: set<string>, k: string)
    requires k in rest && rest <= trials.Keys && Lists(pieces, trials - rest)
    ensures Lists(pieces + [(k, trials[k])], trials - (rest - {k}))
  {
    var pieces' := pieces + [(k, trials[k])];
    assert forall p :: p in pieces' <==> p in pieces || p == (k, trials[k]);
    assert forall x :: x in trials - (rest - {k}) <==> x in trials - rest || x == k;
  }

  lemma {:induction false} StringifiedOfOneMore(pieces: seq<Piece>, p: Piece)
    ensures Stringified(pieces + [p]) == Stringified(pieces) + p.0 + "/" + p.1 + "//"
  {
    if pieces == [] {
      assert pieces + [p] == [p];
    } else {
      assert (pieces + [p])[1..] == pieces[1..] + [p];
      StringifiedOfOneMore(pieces[1..], p);
      var head := pieces[0].0 + "/" + pieces[0].1 + "//";
      assert head + (Stringified(pieces[1..]) + p.0 + "/" + p.1 + "//") ==
             (head + Stringified(pieces[1..])) + p.0 + "/" + p.1 + "//";
    }
  }
}
