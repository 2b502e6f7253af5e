/**
 Group membership, checked through three representations: the text of `allowed_groups`, the set of its
 entries, and the numbers among them. Also the parser that reads a user's groups back from the database.
 */
module Groups {
  import opened Prelude
  import opened Text

  /** The numbers among the entries, in order; an entry that is no number is skipped. */
  function Numbers(parts: seq<string>): seq<Int64> {
    if parts == [] then []
    else
      var last := Atoi(TrimSpace(parts[|parts| - 1]));
      Numbers(parts[..|parts| - 1]) + (if last.Some? then [last.value] else [])
  }

  lemma {:induction false} NumbersAppend(parts: seq<string>, p: string)
    ensures var id := Atoi(TrimSpace(p));
            Numbers(parts + [p]) == Numbers(parts) + (if id.Some? then [id.value] else [])
  {
    assert (parts + [p])[..|parts|] == parts;
  }

  lemma NumbersOfPrefix(parts: seq<string>, i: nat)
    requires i < |parts|
    ensures var id := Atoi(TrimSpace(parts[i]));
            Numbers(parts[..i + 1]) == Numbers(parts[..i]) + (if id.Some? then [id.value] else [])
    ensures Atoi("").None?
  {
    assert parts[..i + 1] == parts[..i] + [parts[i]];
    NumbersAppend(parts[..i], parts[i]);
  }

  function GroupIds(text: string): seq<Int64> {
    if text == "" then [] else Numbers(Split(text))
  }

  /** The trimmed, non-empty entries of the list. */
  function Entries(text: string): set<string> {
    set p | p in Split(text) && TrimSpace(p) != "" :: TrimSpace(p)
  }

  /** The entries among the first `i` parts of the list. */
  function EntriesUpTo(parts: seq<string>, i: nat): (entries: set<string>)
    requires i <= |parts|
    ensures i == 0 ==> entries == {}
  {
    set j | 0 <= j < i && TrimSpace(parts[j]) != "" :: TrimSpace(parts[j])
  }

  lemma NextEntry(parts: seq<string>, i: nat)
    requires i < |parts|
    ensures var p := TrimSpace(parts[i]);
            EntriesUpTo(parts, i + 1) == EntriesUpTo(parts, i) + (if p == "" then {} else {p})
  {
    hide TrimSpace;
  }

  lemma {:induction false} AllEntries(text: string)
    ensures EntriesUpTo(Split(text), |Split(text)|) == Entries(text)
  {
    hide TrimSpace, Split;
  }

  /** Some listed entry is, once trimmed, the decimal form of one of the groups. */
  predicate Lists(text: string, groups: seq<Int64>) {
    exists p, g :: p in Split(text) && g in groups && TrimSpace(p) == Itoa(g)
  }

  predicate Intersects(ids: seq<Int64>, groups: seq<Int64>) {
    exists g :: g in ids && g in groups
  }

  predicate InSet(entries: set<string>, groups: seq<Int64>) {
    exists g :: g in groups && Itoa(g) in entries
  }

  method ParseGroupIDs(s: string) returns (ids: seq<Int64>)
    ensures ids == GroupIds(s)
  {
    if s == "" {
      return [];
    }
    var parts := Split(s);
    ids := [];
    for i := 0 to |parts|
      invariant ids == Numbers(parts[..i])
    {
      NumbersOfPrefix(parts, i);
      var id := Atoi(TrimSpace(parts[i]));
      if id.Some? {
        ids := ids + [id.value];
      }
    }
    assert parts[..|parts|] == parts;
  }

  /** The group part of `parseCachedRoute`. */
  method ParseAllowedGroups(text: string) returns (groupSet: set<string>, groupIDs: seq<Int64>)
    ensures groupSet == if text == "" then {} else Entries(text)
    ensures groupIDs == GroupIds(text)
  {
    groupSet, groupIDs := {}, [];
    if text != "" {
      var parts := Split(text);
      for i := 0 to |parts|
        invariant groupSet == EntriesUpTo(parts, i)
        invariant groupIDs == Numbers(parts[..i])
      {
        hide *;
        NextEntry(parts, i);
        NumbersOfPrefix(parts, i);
        var p := TrimSpace(parts[i]);
        if p != "" {
          groupSet := groupSet + {p};
          var id := Atoi(p);
          if id.Some? {
            groupIDs := groupIDs + [id.value];
          }
        }
      }
      assert parts[..|parts|] == parts;
      AllEntries(text);
    }
  }

  method GroupsAllow(groupSet: set<string>, groupIDs: seq<Int64>) returns (r: bool)
    ensures r <==> InSet(groupSet, groupIDs)
  {
    for i := 0 to |groupIDs|
      invariant forall j :: 0 <= j < i ==> Itoa(groupIDs[j]) !in groupSet
    {
      if Itoa(groupIDs[i]) in groupSet {
        return true;
      }
    }
    return false;
  }

  /** The local map of `RouteAllows`. */
  method AllowedNames(parts: seq<string>) returns (allowed: map<string, bool>)
    ensures allowed.Keys == EntriesUpTo(parts, |parts|)
  {
    hide EntriesUpTo, TrimSpace;
    allowed := map[];
    for i := 0 to |parts|
      invariant allowed.Keys == EntriesUpTo(parts, i)
    {
      NextEntry(parts, i);
      var p := TrimSpace(parts[i]);
      if p != "" {
        allowed := allowed[p := true];
      }
    }
  }

  /** An empty list leaves the route public. */
  method RouteAllows(allowedGroups: string, groupIDs: seq<Int64>) returns (r: bool)
    ensures r <==> allowedGroups == "" || Lists(allowedGroups, groupIDs)
  {
    hide Split, Lists, Entries, EntriesUpTo;
    if allowedGroups == "" {
      return true;
    }
    var allowed := AllowedNames(Split(allowedGroups));
    AllEntries(allowedGroups);
    TextAndSetAgree(allowedGroups, groupIDs);
    for i := 0 to |groupIDs|
      invariant forall j :: 0 <= j < i ==> Itoa(groupIDs[j]) !in allowed
    {
      if Itoa(groupIDs[i]) in allowed {
        return true;
      }
    }
    return false;
  }

  /** `RouteAllows` on the text and `groupsAllow` on its parsed set give the same answer. */
  lemma TextAndSetAgree(text: string, groups: seq<Int64>)
    ensures Lists(text, groups) <==> InSet(Entries(text), groups)
  {
    if Lists(text, groups) {
      var p, g :| p in Split(text) && g in groups && TrimSpace(p) == Itoa(g);
      ItoaIsPlain(g);
      assert Itoa(g) in Entries(text);
    }
  }

  lemma {:induction false} NumbersAreEntries(parts: seq<string>, g: Int64)
    ensures g in Numbers(parts) <==> exists p :: p in parts && Atoi(TrimSpace(p)) == Some(g)
  {
    if parts != [] {
      var init, last := parts[..|parts| - 1], parts[|parts| - 1];
      NumbersAreEntries(init, g);
      assert parts == init + [last];
    }
  }

  /** A group the set lists is among the numbers, too. */
  lemma SetImpliesNumbers(text: string, groups: seq<Int64>)
    requires InSet(Entries(text), groups)
    ensures Intersects(GroupIds(text), groups)
  {
    var g :| g in groups && Itoa(g) in Entries(text);
    var p :| p in Split(text) && TrimSpace(p) != "" && TrimSpace(p) == Itoa(g);
    ItoaThenAtoi(g);
    NumbersAreEntries(Split(text), g);
    assert Split("") == [""] && TrimSpace("") == "";
  }

  /** Every number of the list is also written in its plain decimal form. */
  predicate PlainlyWritten(text: string) {
    forall i :: 0 <= i < |GroupIds(text)| ==> Itoa(GroupIds(text)[i]) in Entries(text)
  }

  /**
   The set check and the number check agree for every user exactly when every number of the list is
   also written plainly.
   */
  lemma SetAndNumbersAgree(text: string)
    ensures PlainlyWritten(text) <==>
            forall groups: seq<Int64> :: InSet(Entries(text), groups) <==> Intersects(GroupIds(text), groups)
  {
    if PlainlyWritten(text) {
      forall groups: seq<Int64>
        ensures InSet(Entries(text), groups) <==> Intersects(GroupIds(text), groups)
      {
        if InSet(Entries(text), groups) {
          SetImpliesNumbers(text, groups);
        }
        if Intersects(GroupIds(text), groups) {
          var g :| g in GroupIds(text) && g in groups;
          var i :| 0 <= i < |GroupIds(text)| && GroupIds(text)[i] == g;
          assert Itoa(g) in Entries(text);
        }
      }
    } else {
      var i :| 0 <= i < |GroupIds(text)| && Itoa(GroupIds(text)[i]) !in Entries(text);
      var groups: seq<Int64> := [GroupIds(text)[i]];
      assert Intersects(GroupIds(text), groups) by { assert GroupIds(text)[i] in groups; }
      assert !InSet(Entries(text), groups);
    }
  }

  /** A list written with a leading zero: the numbers hold group 1, the set and the text do not. */
  lemma LeadingZeroDisagrees()
    ensures Intersects(GroupIds("01"), [1]) && !InSet(Entries("01"), [1]) && !Lists("01", [1])
  {
    SplitCommaFree("01");
    assert TrimLeft("01") == "01" && TrimRight("01") == "01";
    assert Itoa(1) == "1";
    assert "01"[..1] == "0" && "0"[..0] == "";
    assert DigitsValue("0") == 0;
    assert DigitsValue("01") == 1;
    assert Atoi("01") == Some(1);
    NumbersAreEntries(Split("01"), 1);
    var one: seq<Int64> := [1];
    assert 1 in one;
    assert "01"[1] != "1"[0] || |"01"| != |"1"|;
    TextAndSetAgree("01", one);
  }

  function Printed(ids: seq<Int64>): (parts: seq<string>)
    ensures |parts| == |ids|
    ensures forall i :: 0 <= i < |ids| ==> parts[i] == Itoa(ids[i])
  {
    if ids == [] then [] else Printed(ids[..|ids| - 1]) + [Itoa(ids[|ids| - 1])]
  }

  /** A list of ids as the database and the admin page write it. */
  function IdList(ids: seq<Int64>): string {
    Join(Printed(ids))
  }

  lemma NumberRoundTrip(id: Int64)
    ensures Atoi(TrimSpace(Itoa(id))) == Some(id)
  {
    ItoaIsPlain(id);
    ItoaThenAtoi(id);
  }

  lemma {:induction false} NumbersOfPrinted(ids: seq<Int64>)
    ensures Numbers(Printed(ids)) == ids
  {
    if ids != [] {
      hide TrimSpace, Atoi, Itoa;
      var init, last := ids[..|ids| - 1], ids[|ids| - 1];
      assert ids == init + [last];
      NumbersOfPrinted(init);
      NumberRoundTrip(last);
      NumbersAppend(Printed(init), Itoa(last));
      assert Printed(ids) == Printed(init) + [Itoa(last)];
    }
  }

  lemma {:induction false} SplitIdList(ids: seq<Int64>)
    requires ids != []
    ensures IdList(ids) != "" && Split(IdList(ids)) == Printed(ids)
  {
    forall p | p in Printed(ids)
      ensures ',' !in p
    {
      var i :| 0 <= i < |ids| && p == Itoa(ids[i]);
      ItoaIsPlain(ids[i]);
    }
    JoinThenSplit(Printed(ids));
    ItoaIsPlain(ids[0]);
    assert Split("") == [""];
    assert Printed(ids)[0] == Itoa(ids[0]);
  }

  /** Parsing undoes comma-joined printing, for every list of ids. */
  lemma ParseUndoesPrint(ids: seq<Int64>)
    ensures GroupIds(IdList(ids)) == ids
  {
    if ids != [] {
      SplitIdList(ids);
      NumbersOfPrinted(ids);
    }
  }

  /** On a list of printed ids all three checks are the same intersection. */
  lemma ThreeChecksAgree(ids: seq<Int64>, groups: seq<Int64>)
    requires ids != []
    ensures IdList(ids) != ""
    ensures Lists(IdList(ids), groups) <==> Intersects(ids, groups)
    ensures InSet(Entries(IdList(ids)), groups) <==> Intersects(ids, groups)
    ensures GroupIds(IdList(ids)) == ids
  {
    var text := IdList(ids);
    ParseUndoesPrint(ids);
    SplitIdList(ids);
    forall i | 0 <= i < |ids|
      ensures Itoa(ids[i]) in Entries(text)
    {
      ItoaIsPlain(ids[i]);
      assert Printed(ids)[i] in Split(text);
    }
    SetAndNumbersAgree(text);
    TextAndSetAgree(text, groups);
  }
}
