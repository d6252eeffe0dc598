// Subjects and the streams they belong to.
module SubjectRouting {
  import opened Wrappers
  import Text

  // ---- matching ----

  // Token by token: "*" stands for any one token, ">" at the end for one or
  // more.
  predicate TokensMatch(pattern: seq<string>, subject: seq<string>) {
    if pattern == [] then subject == []
    else if pattern[0] == ">" then |pattern| == 1 && subject != []
    else
      && subject != []
      && (pattern[0] == "*" || pattern[0] == subject[0])
      && TokensMatch(pattern[1..], subject[1..])
  }

  predicate Matches(pattern: string, subject: string) {
    pattern == subject || TokensMatch(Text.Split(pattern, '.'), Text.Split(subject, '.'))
  }

  method SubjectMatches(pattern: string, subject: string) returns (yes: bool)
    ensures yes == Matches(pattern, subject)
  {
    if pattern == subject { return true; }
    var patternTokens, subjectTokens := Text.Split(pattern, '.'), Text.Split(subject, '.');
    var subjectIdx := 0;
    var idx := 0;
    while idx < |patternTokens|
      invariant 0 <= idx <= |patternTokens| && subjectIdx == idx <= |subjectTokens|
      invariant TokensMatch(patternTokens, subjectTokens)
                == TokensMatch(patternTokens[idx..], subjectTokens[subjectIdx..])
    {
      var token := patternTokens[idx];
      if token == ">" { return idx == |patternTokens| - 1 && subjectIdx < |subjectTokens|; }
      if subjectIdx >= |subjectTokens| { return false; }
      if token != "*" && token != subjectTokens[subjectIdx] { return false; }
      assert patternTokens[idx..][1..] == patternTokens[idx + 1..];
      assert subjectTokens[subjectIdx..][1..] == subjectTokens[subjectIdx + 1..];
      subjectIdx, idx := subjectIdx + 1, idx + 1;
    }
    yes := subjectIdx == |subjectTokens|;
  }

  // ">" stands only at the end.
  ghost predicate WellPlaced(pattern: seq<string>) {
    forall i | 0 <= i < |pattern| - 1 :: pattern[i] != ">"
  }

  // The place says what a token may be.
  ghost predicate Agrees(token: string, subject: string) {
    token == "*" || token == subject
  }

  ghost predicate AgreesUpTo(pattern: seq<string>, subject: seq<string>, n: nat)
    requires n <= |pattern| && n <= |subject|
  {
    forall i | 0 <= i < n :: Agrees(pattern[i], subject[i])
  }

  // What matching means place by place.
  lemma {:induction false} MatchMeans(pattern: seq<string>, subject: seq<string>)
    requires pattern != []
    ensures TokensMatch(pattern, subject)
            <==> && WellPlaced(pattern)
                 && (if pattern[|pattern| - 1] == ">"
                     then |subject| >= |pattern| && AgreesUpTo(pattern, subject, |pattern| - 1)
                     else |subject| == |pattern| && AgreesUpTo(pattern, subject, |pattern|))
  {
    if |pattern| > 1 && pattern[0] != ">" && subject != [] {
      MatchMeans(pattern[1..], subject[1..]);
      MeansTail(pattern, subject);
    }
  }

  lemma MeansTail(pattern: seq<string>, subject: seq<string>)
    requires |pattern| > 1 && subject != []
    ensures WellPlaced(pattern) <==> pattern[0] != ">" && WellPlaced(pattern[1..])
    ensures forall n | 1 <= n <= |pattern| && n <= |subject| ::
              AgreesUpTo(pattern, subject, n)
              <==> Agrees(pattern[0], subject[0]) && AgreesUpTo(pattern[1..], subject[1..], n - 1)
  {
    if pattern[0] != ">" && WellPlaced(pattern[1..]) {
      forall i | 0 <= i < |pattern| - 1 ensures pattern[i] != ">" {
        assert i > 0 ==> pattern[i] == pattern[1..][i - 1];
      }
    }
    if WellPlaced(pattern) {
      forall i | 0 <= i < |pattern[1..]| - 1 ensures pattern[1..][i] != ">" {
        assert pattern[1..][i] == pattern[i + 1];
      }
    }
    forall n | 1 <= n <= |pattern| && n <= |subject|
      ensures AgreesUpTo(pattern, subject, n)
              <==> Agrees(pattern[0], subject[0]) && AgreesUpTo(pattern[1..], subject[1..], n - 1)
    {
      if Agrees(pattern[0], subject[0]) && AgreesUpTo(pattern[1..], subject[1..], n - 1) {
        forall i | 0 <= i < n ensures Agrees(pattern[i], subject[i]) {
          assert i > 0 ==> Agrees(pattern[1..][i - 1], subject[1..][i - 1]);
        }
      }
      if AgreesUpTo(pattern, subject, n) {
        forall i | 0 <= i < n - 1 ensures Agrees(pattern[1..][i], subject[1..][i]) {
          assert Agrees(pattern[i + 1], subject[i + 1]);
        }
      }
    }
  }

  // Comparing pattern and subject as a whole first is redundant exactly for
  // patterns with ">" only at the end.
  lemma ShortcutRedundant(pattern: string)
    ensures (forall subject :: Matches(pattern, subject)
                               <==> TokensMatch(Text.Split(pattern, '.'), Text.Split(subject, '.')))
            <==> WellPlaced(Text.Split(pattern, '.'))
  {
    var tokens := Text.Split(pattern, '.');
    MatchMeans(tokens, tokens);
    assert Matches(pattern, pattern);
  }

  // ---- streams ----

  datatype StreamSpec = StreamSpec(name: string, subjects: seq<string>)

  predicate Owns(spec: StreamSpec, subject: string) {
    exists pattern | pattern in spec.subjects :: Matches(pattern, subject)
  }

  // The first stream that owns the subject.
  function Resolve(specs: seq<StreamSpec>, subject: string): Option<StreamSpec> {
    if specs == [] then None
    else if Owns(specs[0], subject) then Some(specs[0])
    else Resolve(specs[1..], subject)
  }

  ghost predicate OwnerAt(specs: seq<StreamSpec>, subject: string, i: nat) {
    i < |specs| && Owns(specs[i], subject) && forall j | 0 <= j < i :: !Owns(specs[j], subject)
  }

  // A subject resolves exactly to the first of the streams that owns it.
  lemma {:induction false} ResolvesToFirst(specs: seq<StreamSpec>, subject: string)
    ensures Resolve(specs, subject).None? <==> forall i | 0 <= i < |specs| :: !Owns(specs[i], subject)
    ensures Resolve(specs, subject).Some? ==>
              exists i: nat :: OwnerAt(specs, subject, i) && Resolve(specs, subject) == Some(specs[i])
  {
    hide Owns;
    if specs != [] {
      ResolvesToFirst(specs[1..], subject);
      if Owns(specs[0], subject) {
        assert OwnerAt(specs, subject, 0);
      } else {
        assert forall i | 1 <= i < |specs| :: specs[i] == specs[1..][i - 1];
        if i: nat :| OwnerAt(specs[1..], subject, i) && Resolve(specs[1..], subject) == Some(specs[1..][i]) {
          assert OwnerAt(specs, subject, i + 1);
        }
      }
    }
  }

  function DefaultSpecs(): seq<StreamSpec> {
    [StreamSpec("FLARE_MESSAGE", ["flare.im.message.*", "flare.im.conversation.*"]),
     StreamSpec("FLARE_PUSH", ["flare.im.push.*"]),
     StreamSpec("FLARE_DLQ", ["flare.im.dlq.>"])]
  }

  // No two of the streams own the subject.
  ghost predicate Exclusive(specs: seq<StreamSpec>, subject: string) {
    forall i, j | 0 <= i < j < |specs| :: !(Owns(specs[i], subject) && Owns(specs[j], subject))
  }

  // Then it resolves to a stream exactly if that stream owns it, whatever the
  // order of the streams.
  lemma {:induction false} ResolvesToOwner(specs: seq<StreamSpec>, subject: string, spec: StreamSpec)
    requires Exclusive(specs, subject)
    ensures Resolve(specs, subject) == Some(spec) <==> spec in specs && Owns(spec, subject)
  {
    hide Owns;
    if specs != [] {
      ResolvesToOwner(specs[1..], subject, spec);
      if spec in specs[1..] && Owns(spec, subject) {
        var k :| 0 <= k < |specs[1..]| && specs[1..][k] == spec;
        assert specs[k + 1] == spec;
        assert !Owns(specs[0], subject);
      }
      assert specs == [specs[0]] + specs[1..];
    }
  }

  lemma OrderIsIrrelevant(specs: seq<StreamSpec>, other: seq<StreamSpec>, subject: string)
    requires Exclusive(specs, subject) && Exclusive(other, subject)
    requires forall spec :: spec in specs <==> spec in other
    ensures Resolve(specs, subject) == Resolve(other, subject)
  {
    hide Resolve, Exclusive, Owns;
    if spec :| Resolve(specs, subject) == Some(spec) {
      ResolvesToOwner(specs, subject, spec);
      ResolvesToOwner(other, subject, spec);
    } else if spec :| Resolve(other, subject) == Some(spec) {
      ResolvesToOwner(specs, subject, spec);
      ResolvesToOwner(other, subject, spec);
    } else {
      assert Resolve(specs, subject).None? && Resolve(other, subject).None?;
    }
  }

  // ---- the default streams ----

  lemma SplitsInto(s: string, tokens: seq<string>)
    requires |tokens| >= 1 && Text.Free('.', tokens) && Text.Join(tokens, '.') == s
    ensures Text.Split(s, '.') == tokens
  {
    Text.SplitJoin(tokens, '.');
  }

  lemma FourTokens(a: string, b: string, c: string, d: string)
    ensures Text.Join([a, b, c, d], '.') == a + "." + b + "." + c + "." + d
  {
    assert [a, b, c, d][1..] == [b, c, d] && [b, c, d][1..] == [c, d] && [c, d][1..] == [d];
    assert Text.Join([c, d], '.') == c + ['.'] + d;
    assert Text.Join([b, c, d], '.') == b + ['.'] + (c + ['.'] + d);
    assert b + ['.'] + (c + ['.'] + d) == b + "." + c + "." + d;
  }

  // The subject has these first three tokens, and one more or, if open, any
  // number more.
  ghost predicate Starts(subject: string, kind: string, open: bool) {
    var tokens := Text.Split(subject, '.');
    && |tokens| >= 4 && tokens[0] == "flare" && tokens[1] == "im" && tokens[2] == kind
    && (open || |tokens| == 4)
  }

  lemma KindMatches(kind: string, open: bool, found: seq<string>)
    requires kind != "*" && kind != ">"
    ensures TokensMatch(["flare", "im", kind, if open then ">" else "*"], found)
            <==> && |found| >= 4 && found[0] == "flare" && found[1] == "im" && found[2] == kind
                 && (open || |found| == 4)
  {
    var last := if open then ">" else "*";
    var tokens := ["flare", "im", kind, last];
    MatchMeans(tokens, found);
    hide TokensMatch;
    if |found| >= 4 {
      FirstThree(tokens, found);
      assert last == "*" ==> Agrees(tokens[3], found[3]);
      assert AgreesUpTo(tokens, found, 4) <==> AgreesUpTo(tokens, found, 3) && Agrees(tokens[3], found[3]);
    }
  }

  lemma FirstThree(tokens: seq<string>, found: seq<string>)
    requires |tokens| == 4 && |found| >= 4 && tokens[0] != "*" && tokens[1] != "*" && tokens[2] != "*"
    ensures AgreesUpTo(tokens, found, 3)
            <==> found[0] == tokens[0] && found[1] == tokens[1] && found[2] == tokens[2]
  {
    if AgreesUpTo(tokens, found, 3) {
      assert Agrees(tokens[0], found[0]) && Agrees(tokens[1], found[1]) && Agrees(tokens[2], found[2]);
    }
  }

  lemma DefaultPattern(kind: string, open: bool, subject: string, pattern: string)
    requires '.' !in kind && kind != "*" && kind != ">"
    requires pattern == "flare" + "." + "im" + "." + kind + "." + (if open then ">" else "*")
    ensures Matches(pattern, subject) <==> Starts(subject, kind, open)
  {
    var tokens := ["flare", "im", kind, if open then ">" else "*"];
    FourTokens("flare", "im", kind, tokens[3]);
    SplitsInto(pattern, tokens);
    KindMatches(kind, open, Text.Split(subject, '.'));
    KindMatches(kind, open, tokens);
    hide TokensMatch, Text.Split;
  }

  lemma OwnsEither(spec: StreamSpec, p: string, q: string, subject: string)
    requires spec.subjects == [p, q]
    ensures Owns(spec, subject) <==> Matches(p, subject) || Matches(q, subject)
  {
    assert p in spec.subjects && q in spec.subjects;
  }

  lemma OwnsOnly(spec: StreamSpec, p: string, subject: string)
    requires spec.subjects == [p]
    ensures Owns(spec, subject) <==> Matches(p, subject)
  {
    assert p in spec.subjects;
  }

  lemma MessagePattern(subject: string)
    ensures Matches("flare.im.message.*", subject) <==> Starts(subject, "message", false)
  {
    hide Matches, Starts;
    DefaultPattern("message", false, subject, "flare.im.message.*");
  }

  lemma ConversationPattern(subject: string)
    ensures Matches("flare.im.conversation.*", subject) <==> Starts(subject, "conversation", false)
  {
    hide Matches, Starts;
    DefaultPattern("conversation", false, subject, "flare.im.conversation.*");
  }

  lemma MessageOwner(subject: string)
    ensures Owns(DefaultSpecs()[0], subject)
            <==> Starts(subject, "message", false) || Starts(subject, "conversation", false)
  {
    hide Matches, Starts, Owns;
    MessagePattern(subject);
    ConversationPattern(subject);
    OwnsEither(DefaultSpecs()[0], "flare.im.message.*", "flare.im.conversation.*", subject);
  }

  lemma PushOwner(subject: string)
    ensures Owns(DefaultSpecs()[1], subject) <==> Starts(subject, "push", false)
  {
    hide Matches, Starts, Owns;
    DefaultPattern("push", false, subject, "flare.im.push.*");
    OwnsOnly(DefaultSpecs()[1], "flare.im.push.*", subject);
  }

  lemma DeadLetterOwner(subject: string)
    ensures Owns(DefaultSpecs()[2], subject) <==> Starts(subject, "dlq", true)
  {
    hide Matches, Starts, Owns;
    DefaultPattern("dlq", true, subject, "flare.im.dlq.>");
    OwnsOnly(DefaultSpecs()[2], "flare.im.dlq.>", subject);
  }

  lemma DefaultOwners(subject: string)
    ensures var specs := DefaultSpecs();
            && (Owns(specs[0], subject)
                <==> Starts(subject, "message", false) || Starts(subject, "conversation", false))
            && (Owns(specs[1], subject) <==> Starts(subject, "push", false))
            && (Owns(specs[2], subject) <==> Starts(subject, "dlq", true))
  {
    MessageOwner(subject);
    PushOwner(subject);
    DeadLetterOwner(subject);
    hide Starts, Owns;
  }

  // Where a subject goes by default, told by its tokens.
  lemma DefaultRouting(subject: string, name: string)
    ensures RoutedTo(DefaultSpecs(), subject, name) <==>
              || (name == "FLARE_MESSAGE"
                  && (Starts(subject, "message", false) || Starts(subject, "conversation", false)))
              || (name == "FLARE_PUSH" && Starts(subject, "push", false))
              || (name == "FLARE_DLQ" && Starts(subject, "dlq", true))
  {
    DefaultOwners(subject);
    hide Owns;
    ResolvesToFirst(DefaultSpecs(), subject);
  }

  // No subject belongs to two of the default streams; in particular no dead
  // letter reaches a stream that is consumed.
  lemma DefaultStreamsExclusive(subject: string)
    ensures Exclusive(DefaultSpecs(), subject)
  {
    DefaultOwners(subject);
    hide Owns;
  }

  // ---- grouping ----

  datatype Group = Group(stream: StreamSpec, subjects: seq<string>)

  datatype GroupError = Unrouted(subject: string) | Spread(streams: set<string>)

  ghost predicate Routed(specs: seq<StreamSpec>, subjects: seq<string>) {
    forall s | s in subjects :: Resolve(specs, s).Some?
  }

  ghost predicate RoutedTo(specs: seq<StreamSpec>, subject: string, name: string) {
    Resolve(specs, subject).Some? && Resolve(specs, subject).value.name == name
  }

  // The subjects of one stream, in order.
  ghost function SubjectsOf(specs: seq<StreamSpec>, subjects: seq<string>, name: string): seq<string> {
    if subjects == [] then []
    else
      var last := subjects[|subjects| - 1];
      SubjectsOf(specs, subjects[..|subjects| - 1], name) + (if RoutedTo(specs, last, name) then [last] else [])
  }

  // A group for each stream that owns a subject, with all its subjects.
  ghost predicate Grouped(specs: seq<StreamSpec>, subjects: seq<string>, groups: map<string, Group>) {
    && (forall name :: name in groups <==> SubjectsOf(specs, subjects, name) != [])
    && (forall name | name in groups :: GroupIs(specs, subjects, name, groups[name]))
  }

  ghost predicate GroupIs(specs: seq<StreamSpec>, subjects: seq<string>, name: string, group: Group) {
    && group.subjects == SubjectsOf(specs, subjects, name)
    && group.subjects != [] && Resolve(specs, group.subjects[0]) == Some(group.stream) && group.stream.name == name
  }

  lemma {:induction false} SubjectsOfMeans(specs: seq<StreamSpec>, subjects: seq<string>, name: string, s: string)
    ensures s in SubjectsOf(specs, subjects, name) <==> s in subjects && RoutedTo(specs, s, name)
  {
    hide RoutedTo;
    if subjects != [] {
      SubjectsOfMeans(specs, subjects[..|subjects| - 1], name, s);
      assert subjects == subjects[..|subjects| - 1] + [subjects[|subjects| - 1]];
    }
  }

  // The group is the list at the places of the stream's subjects.
  lemma {:induction false} SubjectsAt(specs: seq<StreamSpec>, subjects: seq<string>, name: string)
    returns (at: seq<nat>)
    ensures Picks(subjects, at, SubjectsOf(specs, subjects, name))
    ensures forall p: nat :: p in at <==> p < |subjects| && RoutedTo(specs, subjects[p], name)
  {
    at := [];
    if subjects != [] {
      var n := |subjects| - 1;
      at := SubjectsAt(specs, subjects[..n], name);
      PicksOneMore(subjects[..n], at, SubjectsOf(specs, subjects[..n], name), subjects[n]);
      hide RoutedTo, Picks;
      assert subjects == subjects[..n] + [subjects[n]];
      if RoutedTo(specs, subjects[n], name) { at := at + [n]; }
    }
  }

  // Every subject is in the group of its stream and in no other.
  lemma EachInItsGroup(
      specs: seq<StreamSpec>, subjects: seq<string>, groups: map<string, Group>, s: string, name: string)
    requires Grouped(specs, subjects, groups) && s in subjects
    ensures RoutedTo(specs, s, name) <==> name in groups && s in groups[name].subjects
  {
    SubjectsOfMeans(specs, subjects, name, s);
  }

  // With distinct stream names, every subject of a group resolves to the
  // group's stream.
  lemma GroupIsOfOneStream(
      specs: seq<StreamSpec>, subjects: seq<string>, groups: map<string, Group>, name: string, s: string)
    requires Grouped(specs, subjects, groups) && name in groups && s in groups[name].subjects
    requires forall i, j | 0 <= i < j < |specs| :: specs[i].name != specs[j].name
    ensures Resolve(specs, s) == Some(groups[name].stream)
  {
    SubjectsOfMeans(specs, subjects, name, s);
    ResolvesAmong(specs, s);
    ResolvesAmong(specs, groups[name].subjects[0]);
  }

  lemma {:induction false} ResolvesAmong(specs: seq<StreamSpec>, subject: string)
    ensures Resolve(specs, subject).Some? ==> Resolve(specs, subject).value in specs
  {
    if specs != [] { ResolvesAmong(specs[1..], subject); }
  }

  lemma GroupedNext(
      specs: seq<StreamSpec>, subjects: seq<string>, i: nat, groups: map<string, Group>, stream: StreamSpec)
    requires i < |subjects| && Grouped(specs, subjects[..i], groups) && Resolve(specs, subjects[i]) == Some(stream)
    ensures var group := if stream.name in groups then groups[stream.name] else Group(stream, []);
            Grouped(specs, subjects[..i + 1], groups[stream.name := group.(subjects := group.subjects + [subjects[i]])])
  {
    hide Resolve;
    assert subjects[..i + 1][..i] == subjects[..i];
  }

  // Groups the subjects by stream; fails on the first that belongs to none.
  method GroupSubjects(specs: seq<StreamSpec>, subjects: seq<string>)
    returns (r: Result<map<string, Group>, GroupError>)
    ensures r.Ok? <==> Routed(specs, subjects)
    ensures r.Ok? ==> Grouped(specs, subjects, r.value)
    ensures r.Err? ==> exists i | 0 <= i < |subjects| ::
              r.error == Unrouted(subjects[i]) && Resolve(specs, subjects[i]) == None && Routed(specs, subjects[..i])
  {
    var groups: map<string, Group> := map[];
    assert Grouped(specs, subjects[..0], groups);
    hide Resolve, Grouped;
    var i := 0;
    while i < |subjects|
      invariant 0 <= i <= |subjects| && Grouped(specs, subjects[..i], groups) && Routed(specs, subjects[..i])
    {
      var stream := Resolve(specs, subjects[i]);
      if stream.None? { return Err(Unrouted(subjects[i])); }
      GroupedNext(specs, subjects, i, groups, stream.value);
      var name := stream.value.name;
      if name !in groups { groups := groups[name := Group(stream.value, [])]; }
      groups := groups[name := groups[name].(subjects := groups[name].subjects + [subjects[i]])];
      assert subjects[..i + 1] == subjects[..i] + [subjects[i]];
      i := i + 1;
    }
    assert subjects[..|subjects|] == subjects;
    r := Ok(groups);
  }

  // All the subjects belong to one stream.
  ghost predicate AllTo(specs: seq<StreamSpec>, subjects: seq<string>, name: string) {
    forall s | s in subjects :: RoutedTo(specs, s, name)
  }

  lemma {:induction false} AllOfThem(specs: seq<StreamSpec>, subjects: seq<string>, name: string)
    requires AllTo(specs, subjects, name)
    ensures SubjectsOf(specs, subjects, name) == subjects
  {
    hide RoutedTo;
    if subjects != [] { AllOfThem(specs, subjects[..|subjects| - 1], name); }
  }

  // A single group has all the subjects ...
  lemma SingleGroupHasAll(specs: seq<StreamSpec>, subjects: seq<string>, groups: map<string, Group>, name: string)
    requires Routed(specs, subjects) && Grouped(specs, subjects, groups) && name in groups && |groups| == 1
    ensures AllTo(specs, subjects, name) && groups[name].subjects == subjects
  {
    OnlyOne(groups.Keys, name);
    forall s | s in subjects ensures RoutedTo(specs, s, name) {
      var other := Resolve(specs, s).value.name;
      EachInItsGroup(specs, subjects, groups, s, other);
      assert other in groups.Keys;
    }
    AllOfThem(specs, subjects, name);
    assert GroupIs(specs, subjects, name, groups[name]);
  }

  // ... and subjects of one stream make a single group.
  lemma OneStreamOneGroup(specs: seq<StreamSpec>, subjects: seq<string>, groups: map<string, Group>, name: string)
    requires Grouped(specs, subjects, groups) && subjects != [] && AllTo(specs, subjects, name)
    ensures groups.Keys == {name} && |groups| == 1
  {
    EachInItsGroup(specs, subjects, groups, subjects[0], name);
    forall n | n in groups ensures n == name {
      assert GroupIs(specs, subjects, n, groups[n]);
      SubjectsOfMeans(specs, subjects, n, groups[n].subjects[0]);
    }
    assert groups.Keys == {name};
  }

  lemma OneGroup(specs: seq<StreamSpec>, subjects: seq<string>, groups: map<string, Group>)
    requires Routed(specs, subjects) && Grouped(specs, subjects, groups)
    ensures forall name | name in groups && |groups| == 1 ::
              AllTo(specs, subjects, name) && groups[name].subjects == subjects && subjects != []
    ensures |groups| == 1 <==> subjects != [] && exists name :: AllTo(specs, subjects, name)
  {
    forall name | name in groups && |groups| == 1
      ensures AllTo(specs, subjects, name) && groups[name].subjects == subjects && subjects != []
    {
      SingleGroupHasAll(specs, subjects, groups, name);
      assert GroupIs(specs, subjects, name, groups[name]);
    }
    hide Routed, Grouped, AllTo;
    if |groups| == 1 {
      var name :| name in groups;
    }
    if name :| subjects != [] && AllTo(specs, subjects, name) {
      OneStreamOneGroup(specs, subjects, groups, name);
    }
  }

  lemma OnlyOne(names: set<string>, name: string)
    requires |names| == 1 && name in names
    ensures names == {name}
  {
    assert |names - {name}| == 0;
  }

  lemma NamedGroups(specs: seq<StreamSpec>, subjects: seq<string>, groups: map<string, Group>, name: string)
    requires Grouped(specs, subjects, groups)
    ensures name in groups <==> exists s | s in subjects :: RoutedTo(specs, s, name)
  {
    hide RoutedTo;
    if name in groups {
      var s := groups[name].subjects[0];
      SubjectsOfMeans(specs, subjects, name, s);
    }
    if s :| s in subjects && RoutedTo(specs, s, name) { SubjectsOfMeans(specs, subjects, name, s); }
  }

  // The one stream of the subjects.
  method ResolveStream(specs: seq<StreamSpec>, subjects: seq<string>) returns (r: Result<StreamSpec, GroupError>)
    ensures r.Ok? <==> subjects != [] && exists name :: AllTo(specs, subjects, name)
    ensures r.Ok? ==> AllTo(specs, subjects, r.value.name) && Resolve(specs, subjects[0]) == Some(r.value)
    ensures r.Err? && r.error.Unrouted? <==> !Routed(specs, subjects)
    ensures r.Err? && r.error.Spread? ==>
              forall name :: name in r.error.streams <==> exists s | s in subjects :: RoutedTo(specs, s, name)
  {
    var grouped := GroupSubjects(specs, subjects);
    if grouped.Err? { return Err(grouped.error); }
    OneGroup(specs, subjects, grouped.value);
    hide AllTo, Resolve;
    if |grouped.value| == 1 {
      var name :| name in grouped.value;
      return Ok(grouped.value[name].stream);
    }
    forall name ensures name in grouped.value <==> exists s | s in subjects :: RoutedTo(specs, s, name) {
      NamedGroups(specs, subjects, grouped.value, name);
    }
    r := Err(Spread(grouped.value.Keys));
  }
}
