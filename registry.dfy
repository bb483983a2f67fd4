/**
 * The known-openings registry: the stored stems, sorted, are grouped by their
 * first character into an insertion-ordered dictionary, and each selected
 * group is listed under a header naming its ECO volume and its size.
 */
module Registry {
  import opened Wrappers
  import opened Strings
  import opened Eco

  /** One entry of the dictionary: a first character and the stems filed under it. */
  datatype Group = Group(key: char, members: seq<string>)

  /** What goes wrong while listing: an empty stem has no first character, a key no volume. */
  datatype ListError = IndexError | KeyError(key: string)

  predicate HasKey(x: string, c: char)
  {
    x != [] && x[0] == c
  }

  /** The stems of `s` whose first character is `c`, in the order of `s`. */
  function Filter(s: seq<string>, c: char): seq<string>
  {
    if s == [] then []
    else Filter(s[..|s| - 1], c) + (if HasKey(s[|s| - 1], c) then [s[|s| - 1]] else [])
  }

  lemma {:induction false} FilterMembers(s: seq<string>, c: char)
    ensures forall x :: x in Filter(s, c) <==> x in s && HasKey(x, c)
  {
    if s != [] {
      FilterMembers(s[..|s| - 1], c);
      assert s == s[..|s| - 1] + [s[|s| - 1]];
    }
  }

  /** A group of sorted stems is itself sorted. */
  lemma {:induction false} FilterSorted(s: seq<string>, c: char)
    requires Sorted(s)
    ensures Sorted(Filter(s, c))
  {
    if s != [] {
      var p, x := s[..|s| - 1], s[|s| - 1];
      assert Sorted(p);
      FilterSorted(p, c);
      FilterMembers(p, c);
      forall y | y in Filter(p, c) ensures AtMost(y, x) {
        var k :| 0 <= k < |p| && p[k] == y;
        assert s[k] == y;
      }
    }
  }

  /** The position of the group with key `c`, or `|gs|` when there is none. */
  function IndexOf(gs: seq<Group>, c: char): (k: nat)
    ensures k <= |gs|
    ensures k < |gs| ==> gs[k].key == c
    ensures forall j :: 0 <= j < k ==> gs[j].key != c
  {
    if gs == [] then 0
    else if gs[0].key == c then 0
    else 1 + IndexOf(gs[1..], c)
  }

  /** `opening_dict[x[0]].append(x)` on a `defaultdict(list)`. */
  function AddStem(gs: seq<Group>, x: string): seq<Group>
    requires x != []
  {
    var k := IndexOf(gs, x[0]);
    if k < |gs| then gs[k := Group(x[0], gs[k].members + [x])]
    else gs + [Group(x[0], [x])]
  }

  /**
   * The stem is appended to the list under its first character, which is
   * created at the end of the dictionary when missing; every other list is
   * left as it was.
   */
  lemma AddStemShape(gs: seq<Group>, x: string)
    requires x != []
    ensures var r, k := AddStem(gs, x), IndexOf(gs, x[0]);
      && |r| == (if k < |gs| then |gs| else |gs| + 1)
      && k < |r| && r[k].key == x[0]
      && r[k].members == (if k < |gs| then gs[k].members else []) + [x]
      && forall i :: 0 <= i < |gs| && i != k ==> r[i] == gs[i]
  {
  }

  /** The dictionary after filing every stem of `s` in turn. */
  function Grouping(s: seq<string>): (r: Result<seq<Group>, ListError>)
    ensures r.Err? ==> r.error == IndexError
  {
    if s == [] then Ok([])
    else
      match Grouping(s[..|s| - 1])
      case Err(e) => Err(e)
      case Ok(gs) =>
        var x := s[|s| - 1];
        if x == [] then Err(IndexError) else Ok(AddStem(gs, x))
  }

  /** Filing one more stem after a successful grouping. */
  lemma GroupingSnoc(p: seq<string>, x: string)
    requires x != [] && Grouping(p).Ok?
    ensures Grouping(p + [x]) == Ok(AddStem(Grouping(p).value, x))
  {
    assert (p + [x])[..|p|] == p;
  }

  predicate KeysDistinct(gs: seq<Group>)
  {
    forall i, j :: 0 <= i < j < |gs| ==> gs[i].key != gs[j].key
  }

  /**
   * `gs` partitions `s` by first character: one non-empty group per first
   * character occurring in `s`, holding exactly the stems with that first
   * character in their order in `s`.
   */
  predicate Partitions(gs: seq<Group>, s: seq<string>)
  {
    && KeysDistinct(gs)
    && (forall i :: 0 <= i < |gs| ==> gs[i].members == Filter(s, gs[i].key) && gs[i].members != [])
    && (forall j :: 0 <= j < |s| && s[j] != [] ==> exists i :: 0 <= i < |gs| && gs[i].key == s[j][0])
  }

  /** Grouping fails exactly when some stem is empty. */
  lemma {:induction false} GroupingFails(s: seq<string>)
    ensures Grouping(s).Err? <==> [] in s
    ensures Grouping(s).Err? ==> Grouping(s).error == IndexError
  {
    if s != [] {
      var p := s[..|s| - 1];
      GroupingFails(p);
      assert s == p + [s[|s| - 1]];
    }
  }

  lemma FilterSnoc(p: seq<string>, x: string, d: char)
    ensures Filter(p + [x], d) == Filter(p, d) + (if HasKey(x, d) then [x] else [])
  {
    assert (p + [x])[..|p|] == p;
  }

  /** A character that keys no group starts no stem filed so far. */
  lemma NoGroupNoStems(gs: seq<Group>, p: seq<string>, c: char)
    requires Partitions(gs, p) && IndexOf(gs, c) == |gs|
    ensures Filter(p, c) == []
  {
    forall j | 0 <= j < |p| ensures !HasKey(p[j], c) {
      if p[j] != [] {
        var i :| 0 <= i < |gs| && gs[i].key == p[j][0];
      }
    }
    FilterNone(p, c);
  }

  lemma {:induction false} FilterNone(p: seq<string>, c: char)
    requires forall j :: 0 <= j < |p| ==> !HasKey(p[j], c)
    ensures Filter(p, c) == []
  {
    if p != [] {
      FilterNone(p[..|p| - 1], c);
    }
  }

  lemma AddStemMembers(gs: seq<Group>, p: seq<string>, x: string)
    requires x != [] && Partitions(gs, p)
    ensures var gs' := AddStem(gs, x);
      forall i :: 0 <= i < |gs'| ==> gs'[i].members == Filter(p + [x], gs'[i].key) && gs'[i].members != []
  {
    var gs' := AddStem(gs, x);
    forall i | 0 <= i < |gs'| ensures gs'[i].members == Filter(p + [x], gs'[i].key) && gs'[i].members != [] {
      AddStemMember(gs, p, x, i);
    }
  }

  /** The group at position `i` after filing `x`. */
  lemma AddStemMember(gs: seq<Group>, p: seq<string>, x: string, i: nat)
    requires x != [] && Partitions(gs, p) && i < |AddStem(gs, x)|
    ensures AddStem(gs, x)[i].members == Filter(p + [x], AddStem(gs, x)[i].key)
    ensures AddStem(gs, x)[i].members != []
  {
    var k := IndexOf(gs, x[0]);
    var g' := AddStem(gs, x)[i];
    FilterSnoc(p, x, g'.key);
    if i == k && k < |gs| {
      assert g' == Group(x[0], gs[k].members + [x]);
      assert gs[k].members == Filter(p, x[0]);
      assert HasKey(x, x[0]);
    } else if i == k {
      assert g' == Group(x[0], [x]);
      NoGroupNoStems(gs, p, x[0]);
      assert HasKey(x, x[0]);
    } else {
      assert i < |gs| && g' == gs[i];
      assert gs[i].key != x[0] by {
        if k < |gs| {
          assert gs[k].key == x[0];
        }
      }
      assert !HasKey(x, g'.key);
      assert gs[i].members == Filter(p, gs[i].key) && gs[i].members != [];
    }
  }

  lemma AddStemCovers(gs: seq<Group>, p: seq<string>, x: string)
    requires x != [] && Partitions(gs, p)
    ensures var gs', s := AddStem(gs, x), p + [x];
      forall j :: 0 <= j < |s| && s[j] != [] ==> exists i :: 0 <= i < |gs'| && gs'[i].key == s[j][0]
  {
    var gs', s := AddStem(gs, x), p + [x];
    forall j | 0 <= j < |s| && s[j] != [] ensures exists i :: 0 <= i < |gs'| && gs'[i].key == s[j][0] {
      if j < |p| {
        assert s[j] == p[j];
        var i :| 0 <= i < |gs| && gs[i].key == p[j][0];
        assert gs'[i].key == s[j][0];
      } else {
        assert gs'[IndexOf(gs, x[0])].key == x[0];
      }
    }
  }

  /** Filing one more stem keeps the dictionary a partition of the stems filed. */
  lemma AddStemPartitions(gs: seq<Group>, p: seq<string>, x: string)
    requires x != [] && Partitions(gs, p)
    ensures Partitions(AddStem(gs, x), p + [x])
  {
    AddStemMembers(gs, p, x);
    AddStemCovers(gs, p, x);
  }

  /** Grouping stems that all have a first character partitions them. */
  lemma {:induction false} GroupingPartitions(s: seq<string>)
    requires [] !in s
    ensures Grouping(s).Ok? && Partitions(Grouping(s).value, s)
  {
    if s != [] {
      var p, x := s[..|s| - 1], s[|s| - 1];
      assert s == p + [x];
      GroupingPartitions(p);
      AddStemPartitions(Grouping(p).value, p, x);
    }
  }

  /** The stems of the groups, group after group. */
  function Flatten(gs: seq<Group>): seq<string>
  {
    if gs == [] then [] else gs[0].members + Flatten(gs[1..])
  }

  lemma {:induction false} FlattenSnoc(gs: seq<Group>, g: Group)
    ensures Flatten(gs + [g]) == Flatten(gs) + g.members
  {
    if gs != [] {
      assert (gs + [g])[1..] == gs[1..] + [g];
      FlattenSnoc(gs[1..], g);
    }
  }

  predicate KeysAscending(gs: seq<Group>)
  {
    forall i, j :: 0 <= i < j < |gs| ==> gs[i].key < gs[j].key
  }

  lemma SortedPrefix(s: seq<string>, n: nat)
    requires Sorted(s) && n <= |s|
    ensures Sorted(s[..n])
  {
    assert forall i :: 0 <= i < n ==> s[..n][i] == s[i];
  }

  /** Filing a stem whose first character is at least every key so far. */
  lemma AddStemAtEnd(gs: seq<Group>, x: string)
    requires x != [] && KeysAscending(gs) && gs != [] && gs[|gs| - 1].key <= x[0]
    ensures var gs' := AddStem(gs, x);
      KeysAscending(gs') && Flatten(gs') == Flatten(gs) + [x] && gs'[|gs'| - 1].key == x[0]
  {
    var last := |gs| - 1;
    var init := gs[..last];
    assert gs == init + [gs[last]];
    var k := IndexOf(gs, x[0]);
    if gs[last].key == x[0] {
      assert k == last;
      var g' := Group(x[0], gs[last].members + [x]);
      assert AddStem(gs, x) == init + [g'];
      FlattenSnoc(init, gs[last]);
      FlattenSnoc(init, g');
    } else {
      assert k == |gs|;
      FlattenSnoc(gs, Group(x[0], [x]));
    }
  }

  /**
   * For sorted stems the dictionary lists the groups in ascending order of
   * their keys, and reading the groups one after the other gives back the
   * sorted stems: each group is a contiguous run of them.
   */
  lemma {:induction false} GroupingOfSorted(s: seq<string>)
    requires Sorted(s) && [] !in s
    ensures Grouping(s).Ok?
    ensures KeysAscending(Grouping(s).value) && Flatten(Grouping(s).value) == s
    ensures s != [] ==> Grouping(s).value != [] && Grouping(s).value[|Grouping(s).value| - 1].key == s[|s| - 1][0]
  {
    if s != [] {
      var p, x := s[..|s| - 1], s[|s| - 1];
      assert s == p + [x];
      assert [] !in p by {
        forall j | 0 <= j < |p| ensures p[j] != [] {
          assert p[j] == s[j];
        }
      }
      SortedPrefix(s, |s| - 1);
      GroupingOfSorted(p);
      if p != [] {
        assert AtMost(s[|p| - 1], s[|p|]);
        AtMostFirstChar(p[|p| - 1], x);
      }
      GroupingOfSortedStep(p, x);
    }
  }

  /** The first stem filed opens the first group. */
  lemma FirstStem(x: string)
    requires x != []
    ensures Grouping([x]) == Ok([Group(x[0], [x])])
    ensures Flatten([Group(x[0], [x])]) == [x]
  {
    var none: seq<Group> := [];
    assert [x][..0] == [];
    assert AddStem(none, x) == [Group(x[0], [x])];
    assert Flatten([Group(x[0], [x])]) == [x] + Flatten([]);
  }

  /** Filing a stem whose first character is at least the last stem's, after a grouping that keeps order. */
  lemma GroupingOfSortedStep(p: seq<string>, x: string)
    requires x != [] && Grouping(p).Ok?
    requires KeysAscending(Grouping(p).value) && Flatten(Grouping(p).value) == p
    requires p != [] ==> Grouping(p).value != [] && Grouping(p).value[|Grouping(p).value| - 1].key == p[|p| - 1][0]
    requires p != [] ==> p[|p| - 1] != [] && p[|p| - 1][0] <= x[0]
    ensures Grouping(p + [x]).Ok?
    ensures KeysAscending(Grouping(p + [x]).value) && Flatten(Grouping(p + [x]).value) == p + [x]
    ensures Grouping(p + [x]).value != [] && Grouping(p + [x]).value[|Grouping(p + [x]).value| - 1].key == x[0]
  {
    if p == [] {
      assert p + [x] == [x];
      FirstStem(x);
    } else {
      var gs := Grouping(p).value;
      var gs' := AddStem(gs, x);
      AddStemAtEnd(gs, x);
      GroupingSnoc(p, x);
      assert Grouping(p + [x]) == Ok(gs');
    }
  }

  /** The grouping loop of `list_known_openings`. */
  method GroupStems(stems: seq<string>) returns (r: Result<seq<Group>, ListError>)
    ensures r == Grouping(stems)
  {
    var groups: seq<Group> := [];
    var i := 0;
    while i < |stems|
      invariant 0 <= i <= |stems|
      invariant Grouping(stems[..i]) == Ok(groups)
    {
      var stem := stems[i];
      if stem == [] {
        GroupingFails(stems);
        return Err(IndexError);
      }
      assert stems[..i + 1][..i] == stems[..i];
      groups := AddStem(groups, stem);
      i := i + 1;
    }
    assert stems[..i] == stems;
    r := Ok(groups);
  }

  /** What the listing prints, one record per `print` call. */
  datatype Line =
    | TotalLine(count: nat)                  // ":fire: You already know a total of <count> openings!!! :fire:"
    | Header(volume: ECOVolume, count: nat)  // "<volume> (<count>)!"
    | Member(stem: string)                   // "✔️  <stem>"
    | Blank                                  // the empty line after each group

  /** The lines printed so far and the error, if any, that stopped the listing. */
  datatype Listing = Listing(lines: seq<Line>, error: Option<ListError>)

  function MemberLines(ms: seq<string>): (r: seq<Line>)
    ensures |r| == |ms|
  {
    seq(|ms|, k requires 0 <= k < |ms| => Member(ms[k]))
  }

  /** The lines of one selected group. */
  function GroupLines(v: ECOVolume, g: Group): seq<Line>
  {
    [Header(v, |g.members|)] + MemberLines(g.members) + [Blank]
  }

  /** The emitting loop of `list_known_openings` over the groups `gs`. */
  function Emit(gs: seq<Group>, filter: Option<ECOVolume>): (out: Listing)
    ensures out.error.Some? ==> out.error.value.KeyError? && Lookup(out.error.value.key).None?
    ensures filter.None? && out.error.None? ==> |out.lines| >= 2 * |gs|
  {
    if gs == [] then Listing([], None)
    else if !Selects(filter, [gs[0].key]) then Emit(gs[1..], filter)
    else
      match Lookup([gs[0].key])
      case None => Listing([], Some(KeyError([gs[0].key])))
      case Some(v) =>
        var rest := Emit(gs[1..], filter);
        Listing(GroupLines(v, gs[0]) + rest.lines, rest.error)
  }

  function Prefixed(lines: seq<Line>, out: Listing): Listing
  {
    Listing(lines + out.lines, out.error)
  }

  lemma PrefixedTwice(a: seq<Line>, b: seq<Line>, out: Listing)
    ensures Prefixed(a, Prefixed(b, out)) == Prefixed(a + b, out)
  {
    assert a + (b + out.lines) == (a + b) + out.lines;
  }

  /** The inner loop: one group's header, its members, and the blank line. */
  method PrintGroup(v: ECOVolume, g: Group) returns (lines: seq<Line>)
    ensures lines == GroupLines(v, g)
  {
    lines := [Header(v, |g.members|)];
    var j := 0;
    while j < |g.members|
      invariant 0 <= j <= |g.members|
      invariant lines == [Header(v, |g.members|)] + MemberLines(g.members[..j])
    {
      assert MemberLines(g.members[..j + 1]) == MemberLines(g.members[..j]) + [Member(g.members[j])];
      lines := lines + [Member(g.members[j])];
      j := j + 1;
    }
    assert g.members[..j] == g.members;
    lines := lines + [Blank];
  }

  /** One step of the outer loop: emitting from group `i` onwards. */
  lemma EmitStep(gs: seq<Group>, i: nat, filter: Option<ECOVolume>)
    requires i < |gs|
    ensures !Selects(filter, [gs[i].key]) ==> Emit(gs[i..], filter) == Emit(gs[i + 1..], filter)
    ensures Selects(filter, [gs[i].key]) && Lookup([gs[i].key]).None? ==>
              Emit(gs[i..], filter) == Listing([], Some(KeyError([gs[i].key])))
    ensures Selects(filter, [gs[i].key]) && Lookup([gs[i].key]).Some? ==>
              Emit(gs[i..], filter)
              == Prefixed(GroupLines(Lookup([gs[i].key]).value, gs[i]), Emit(gs[i + 1..], filter))
  {
    assert gs[i..][0] == gs[i] && gs[i..][1..] == gs[i + 1..];
  }

  /** The outer loop of the printing: the selected groups, one after the other. */
  method EmitGroups(gs: seq<Group>, filter: Option<ECOVolume>) returns (out: Listing)
    ensures out == Emit(gs, filter)
  {
    var lines: seq<Line> := [];
    var i := 0;
    while i < |gs|
      invariant 0 <= i <= |gs|
      invariant Emit(gs, filter) == Prefixed(lines, Emit(gs[i..], filter))
    {
      var g := gs[i];
      EmitStep(gs, i, filter);
      if Selects(filter, [g.key]) {
        var volume := Lookup([g.key]);
        if volume.None? {
          return Listing(lines, Some(KeyError([g.key])));
        }
        var groupLines := PrintGroup(volume.value, g);
        PrefixedTwice(lines, groupLines, Emit(gs[i + 1..], filter));
        lines := lines + groupLines;
      }
      i := i + 1;
    }
    assert gs[i..] == [];
    out := Listing(lines, None);
  }

  /** With a volume filter no group is selected, so nothing is printed and nothing fails. */
  lemma {:induction false} EmitWithVolumeFilter(gs: seq<Group>, v: ECOVolume)
    ensures Emit(gs, Some(v)) == Listing([], None)
  {
    if gs != [] {
      FilterSelectsNoLetter(v, gs[0].key);
      EmitWithVolumeFilter(gs[1..], v);
    }
  }

  /** Every group key names a volume. */
  predicate AllVolumes(gs: seq<Group>)
  {
    forall i :: 0 <= i < |gs| ==> Lookup([gs[i].key]).Some?
  }

  /** The stems of the member lines, in order. */
  function MembersOf(lines: seq<Line>): seq<string>
  {
    if lines == [] then []
    else (if lines[0].Member? then [lines[0].stem] else []) + MembersOf(lines[1..])
  }

  /** The header lines, in order. */
  function HeadersOf(lines: seq<Line>): seq<Line>
  {
    if lines == [] then []
    else (if lines[0].Header? then [lines[0]] else []) + HeadersOf(lines[1..])
  }

  lemma MembersOfAppend(a: seq<Line>, b: seq<Line>)
    ensures MembersOf(a + b) == MembersOf(a) + MembersOf(b)
    ensures HeadersOf(a + b) == HeadersOf(a) + HeadersOf(b)
  {
    MembersOfConcat(a, b);
    HeadersOfConcat(a, b);
  }

  lemma {:induction false} MembersOfConcat(a: seq<Line>, b: seq<Line>)
    ensures MembersOf(a + b) == MembersOf(a) + MembersOf(b)
  {
    if a == [] {
      assert a + b == b;
    } else {
      assert (a + b)[0] == a[0] && (a + b)[1..] == a[1..] + b;
      MembersOfConcat(a[1..], b);
      var m := if a[0].Member? then [a[0].stem] else [];
      assert MembersOf(a + b) == m + MembersOf(a[1..] + b);
      assert m + (MembersOf(a[1..]) + MembersOf(b)) == (m + MembersOf(a[1..])) + MembersOf(b);
    }
  }

  lemma {:induction false} HeadersOfConcat(a: seq<Line>, b: seq<Line>)
    ensures HeadersOf(a + b) == HeadersOf(a) + HeadersOf(b)
  {
    if a == [] {
      assert a + b == b;
    } else {
      assert (a + b)[0] == a[0] && (a + b)[1..] == a[1..] + b;
      HeadersOfConcat(a[1..], b);
      var h := if a[0].Header? then [a[0]] else [];
      assert HeadersOf(a + b) == h + HeadersOf(a[1..] + b);
      assert h + (HeadersOf(a[1..]) + HeadersOf(b)) == (h + HeadersOf(a[1..])) + HeadersOf(b);
    }
  }

  lemma {:induction false} MemberLinesContent(ms: seq<string>)
    ensures MembersOf(MemberLines(ms)) == ms && HeadersOf(MemberLines(ms)) == []
  {
    if ms != [] {
      assert MemberLines(ms)[1..] == MemberLines(ms[1..]);
      MemberLinesContent(ms[1..]);
    }
  }

  lemma GroupLinesContent(v: ECOVolume, g: Group)
    ensures MembersOf(GroupLines(v, g)) == g.members
    ensures HeadersOf(GroupLines(v, g)) == [Header(v, |g.members|)]
  {
    var h: seq<Line> := [Header(v, |g.members|)];
    MemberLinesContent(g.members);
    MembersOfAppend(h, MemberLines(g.members));
    MembersOfAppend(h + MemberLines(g.members), [Blank]);
    assert MembersOf(h) == [] && HeadersOf(h) == h by {
      assert h[1..] == [];
    }
    assert MembersOf([Blank]) == [] && HeadersOf([Blank]) == [] by {
      assert [Blank][1..] == [];
    }
  }

  /** The header printed for a group: its volume and its size. */
  function HeaderFor(g: Group): Line
    requires Lookup([g.key]).Some?
  {
    Header(Lookup([g.key]).value, |g.members|)
  }

  function HeadersFor(gs: seq<Group>): (r: seq<Line>)
    requires AllVolumes(gs)
    ensures |r| == |gs|
  {
    seq(|gs|, i requires 0 <= i < |gs| => HeaderFor(gs[i]))
  }

  /**
   * Without a filter and with every key naming a volume, the listing prints
   * every group without error: one header per group, in the groups' order,
   * counting the group's members, and the members of all groups in order.
   */
  lemma {:induction false} EmitUnfiltered(gs: seq<Group>)
    requires AllVolumes(gs)
    ensures Emit(gs, None).error == None
    ensures HeadersOf(Emit(gs, None).lines) == HeadersFor(gs)
    ensures MembersOf(Emit(gs, None).lines) == Flatten(gs)
  {
    EmitUnfilteredLines(gs);
    AllGroupLinesContent(gs);
  }

  lemma AllVolumesTail(gs: seq<Group>)
    requires gs != [] && AllVolumes(gs)
    ensures AllVolumes(gs[1..])
  {
    forall i | 0 <= i < |gs| - 1 ensures Lookup([gs[1..][i].key]).Some? {
      assert gs[1..][i] == gs[i + 1];
    }
  }

  /** The headers and the members among the groups' lines. */
  lemma {:induction false} AllGroupLinesContent(gs: seq<Group>)
    requires AllVolumes(gs)
    ensures HeadersOf(AllGroupLines(gs)) == HeadersFor(gs)
    ensures MembersOf(AllGroupLines(gs)) == Flatten(gs)
  {
    if gs != [] {
      var g := gs[0];
      AllVolumesTail(gs);
      AllGroupLinesContent(gs[1..]);
      var v := Lookup([g.key]).value;
      GroupLinesContent(v, g);
      MembersOfAppend(GroupLines(v, g), AllGroupLines(gs[1..]));
      assert HeadersFor(gs) == [HeaderFor(g)] + HeadersFor(gs[1..]);
    }
  }

  /** The lines of the groups, group after group, each under its volume's header. */
  function AllGroupLines(gs: seq<Group>): seq<Line>
  {
    if gs == [] then []
    else
      match Lookup([gs[0].key])
      case None => []
      case Some(v) => GroupLines(v, gs[0]) + AllGroupLines(gs[1..])
  }

  /**
   * Without a filter and with every key naming a volume, the listing is each
   * group's header, members and blank line, group after group.
   */
  lemma {:induction false} EmitUnfilteredLines(gs: seq<Group>)
    requires AllVolumes(gs)
    ensures Emit(gs, None) == Listing(AllGroupLines(gs), None)
  {
    if gs != [] {
      AllVolumesTail(gs);
      EmitUnfilteredLines(gs[1..]);
    }
  }

  /** Without a filter, a key naming no volume stops the listing with `KeyError`. */
  lemma {:induction false} EmitUnknownKey(gs: seq<Group>)
    ensures Emit(gs, None).error.Some? <==> !AllVolumes(gs)
    ensures Emit(gs, None).error.Some? ==> Emit(gs, None).error.value.KeyError?
  {
    if gs != [] {
      EmitUnknownKey(gs[1..]);
      if Lookup([gs[0].key]).Some? && !AllVolumes(gs) {
        var i :| 0 <= i < |gs| && Lookup([gs[i].key]).None?;
        assert gs[1..][i - 1] == gs[i];
      }
    }
  }

  /**
   * The whole of `list_known_openings` on the sorted stems: the total first,
   * then the grouped listing, or the error that interrupted it.
   */
  function Report(sorted: seq<string>, filter: Option<ECOVolume>): (out: Listing)
    ensures out.lines != [] && out.lines[0] == TotalLine(|sorted|)
  {
    match Grouping(sorted)
    case Err(e) => Listing([TotalLine(|sorted|)], Some(e))
    case Ok(gs) => Prefixed([TotalLine(|sorted|)], Emit(gs, filter))
  }

  /**
   * With a volume filter the listing is the total alone (or the total and the
   * error of an empty stem): no header and no member is ever printed.
   */
  lemma ReportWithVolumeFilter(s: seq<string>, v: ECOVolume)
    ensures Report(s, Some(v)) == Listing([TotalLine(|s|)], if [] in s then Some(IndexError) else None)
  {
    GroupingFails(s);
    if [] !in s {
      EmitWithVolumeFilter(Grouping(s).value, v);
    }
  }

  /** The groups' keys all name volumes when every stem starts with a volume letter. */
  lemma PartitionVolumes(gs: seq<Group>, s: seq<string>)
    requires Partitions(gs, s) && [] !in s
    requires forall j :: 0 <= j < |s| ==> Lookup([s[j][0]]).Some?
    ensures AllVolumes(gs)
  {
    forall i | 0 <= i < |gs| ensures Lookup([gs[i].key]).Some? {
      var c := gs[i].key;
      FilterMembers(s, c);
      assert Filter(s, c)[0] in Filter(s, c);
      var j :| 0 <= j < |s| && s[j] == Filter(s, c)[0];
    }
  }

  /**
   * Without a filter, when every stored stem starts with a volume letter, the
   * listing of the sorted stems succeeds: after the total it prints one header
   * per first letter, in ascending order of the letters, each counting the
   * stems that start with that letter, and it prints every stem once, in
   * sorted order, each under its letter's header.
   */
  lemma ReportUnfiltered(s: seq<string>)
    requires Sorted(s) && [] !in s
    requires forall j :: 0 <= j < |s| ==> Lookup([s[j][0]]).Some?
    ensures Grouping(s).Ok?
    ensures var gs, out := Grouping(s).value, Report(s, None);
      && out.error == None
      && MembersOf(out.lines) == s
      && Partitions(gs, s) && KeysAscending(gs) && AllVolumes(gs)
      && |HeadersOf(out.lines)| == |gs|
      && forall i :: 0 <= i < |gs| ==>
           HeadersOf(out.lines)[i] == Header(Lookup([gs[i].key]).value, |Filter(s, gs[i].key)|)
    ensures Report(s, None).lines == [TotalLine(|s|)] + AllGroupLines(Grouping(s).value)
  {
    GroupingPartitions(s);
    GroupingOfSorted(s);
    var gs := Grouping(s).value;
    PartitionVolumes(gs, s);
    ReportHeadersAndMembers(s, gs);
    EmitUnfilteredLines(gs);
  }

  lemma ReportHeadersAndMembers(s: seq<string>, gs: seq<Group>)
    requires Grouping(s) == Ok(gs) && Partitions(gs, s) && AllVolumes(gs)
    ensures Report(s, None).error == None
    ensures MembersOf(Report(s, None).lines) == Flatten(gs)
    ensures HeadersOf(Report(s, None).lines) == HeadersFor(gs)
    ensures forall i :: 0 <= i < |gs| ==> HeadersFor(gs)[i] == Header(Lookup([gs[i].key]).value, |Filter(s, gs[i].key)|)
  {
    EmitUnfiltered(gs);
    var total: seq<Line> := [TotalLine(|s|)];
    MembersOfAppend(total, Emit(gs, None).lines);
    assert MembersOf(total) == [] && HeadersOf(total) == [] by {
      assert total[1..] == [];
    }
  }

  /** Without a filter, a stem whose first letter names no volume makes the listing fail with `KeyError`. */
  lemma ReportUnknownVolume(s: seq<string>, j: nat)
    requires [] !in s && j < |s| && Lookup([s[j][0]]).None?
    ensures Report(s, None).error.Some? && Report(s, None).error.value.KeyError?
  {
    GroupingPartitions(s);
    var gs := Grouping(s).value;
    var i :| 0 <= i < |gs| && gs[i].key == s[j][0];
    EmitUnknownKey(gs);
  }
}
