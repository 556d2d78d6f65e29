/** What `get()` promises its callers, stated over the model in `Activation`:
    when it fails, when it returns nothing, and the shape of what it returns. */
module ActivationProperties {
  import opened Wrappers
  import opened Decimal
  import opened Split
  import opened Activation

  /** Without `LISTEN_PID` the protocol is not engaged, whatever else is set. */
  lemma AbsentPidIsEmpty(listenFds: Option<string>, listenFdNames: Option<string>, selfPid: u32)
    ensures Get(None, listenFds, listenFdNames, selfPid) == Ok([])
  {
  }

  /** A `LISTEN_PID` that is not a `u32` is an error, whatever else is set. */
  lemma MalformedPidFails(pidText: string, listenFds: Option<string>, listenFdNames: Option<string>, selfPid: u32)
    requires !IsU32Literal(pidText)
    ensures Get(Some(pidText), listenFds, listenFdNames, selfPid) == Err(MalformedEnv)
  {
  }

  /** Variables meant for another process are ignored, even when
      `LISTEN_FDS` is missing or malformed. */
  lemma ForeignPidIsEmpty(pidText: string, listenFds: Option<string>, listenFdNames: Option<string>, selfPid: u32)
    requires IsU32Literal(pidText) && LiteralValue(pidText) != selfPid
    ensures Get(Some(pidText), listenFds, listenFdNames, selfPid) == Ok([])
  {
  }

  /** This process is addressed but no count is given: nothing is passed. */
  lemma AbsentCountIsEmpty(listenPid: Option<string>, listenFdNames: Option<string>, selfPid: u32)
    requires Addressed(listenPid, selfPid)
    ensures Get(listenPid, None, listenFdNames, selfPid) == Ok([])
  {
  }

  /** This process is addressed and `LISTEN_FDS` is not a `u32`: an error. */
  lemma MalformedCountFails(listenPid: Option<string>, countText: string, listenFdNames: Option<string>, selfPid: u32)
    requires Addressed(listenPid, selfPid) && !IsU32Literal(countText)
    ensures Get(listenPid, Some(countText), listenFdNames, selfPid) == Err(MalformedEnv)
  {
  }

  /** The overflow guard: a count above `u32::MAX - 3` is an error. */
  lemma OverflowGuardFails(listenPid: Option<string>, countText: string, listenFdNames: Option<string>, selfPid: u32)
    requires Addressed(listenPid, selfPid)
    requires IsU32Literal(countText) && LiteralValue(countText) > MAX_FD_COUNT
    ensures Get(listenPid, Some(countText), listenFdNames, selfPid) == Err(MalformedEnv)
  {
  }

  /** A variable that is set but empty is malformed, not absent: the empty
      string reaches the `u32` parse and fails there, both for `LISTEN_PID`
      and for a `LISTEN_FDS` addressed to this process. */
  lemma EmptyVariableIsMalformed(listenPid: Option<string>, listenFds: Option<string>, listenFdNames: Option<string>, selfPid: u32)
    ensures Get(Some(""), listenFds, listenFdNames, selfPid) == Err(MalformedEnv)
    ensures Addressed(listenPid, selfPid) ==> Get(listenPid, Some(""), listenFdNames, selfPid) == Err(MalformedEnv)
  {
    ParseRejectsEmpty();
  }

  /** On success the descriptors are `3, 4, ...` in order: strictly ascending,
      pairwise distinct, never a standard stream, and never beyond
      `u32::MAX - 1`, so no descriptor number wrapped around. */
  lemma DescriptorsAreFresh(listenPid: Option<string>, listenFds: Option<string>, listenFdNames: Option<string>, selfPid: u32)
    requires Get(listenPid, listenFds, listenFdNames, selfPid).Ok?
    ensures var entries := Get(listenPid, listenFds, listenFdNames, selfPid).value;
            && (forall i, j :: 0 <= i < j < |entries| ==> entries[i].fd < entries[j].fd)
            && (forall i, j :: 0 <= i < |entries| && 0 <= j < |entries| && i != j ==> entries[i].fd != entries[j].fd)
            && (forall i :: 0 <= i < |entries| ==> SD_LISTEN_FDS_START <= entries[i].fd <= U32_MAX - 1)
  {
    var entries := Get(listenPid, listenFds, listenFdNames, selfPid).value;
    if Engaged(listenPid, listenFds, selfPid) {
      assert |entries| <= MAX_FD_COUNT;
      assert forall i :: 0 <= i < |entries| ==> entries[i].fd == SD_LISTEN_FDS_START + i;
    }
  }

  /** With `LISTEN_FDNAMES` unset or empty, no descriptor is named. */
  lemma UnnamedWithoutNameList(listenPid: Option<string>, listenFds: Option<string>, listenFdNames: Option<string>, selfPid: u32)
    requires listenFdNames == None || listenFdNames == Some("")
    requires Get(listenPid, listenFds, listenFdNames, selfPid).Ok?
    ensures var entries := Get(listenPid, listenFds, listenFdNames, selfPid).value;
            forall i :: 0 <= i < |entries| ==> entries[i].name == None
  {
  }

  /** With a non-empty `LISTEN_FDNAMES`, descriptor `i` is named by field `i`
      of its colon split while fields remain and is unnamed after that; fields
      beyond the count are dropped without an error. */
  lemma NamesFollowFields(listenPid: Option<string>, countText: string, namesRaw: string, selfPid: u32)
    requires Engaged(listenPid, Some(countText), selfPid) && namesRaw != []
    ensures var entries := Get(listenPid, Some(countText), Some(namesRaw), selfPid).value;
            var fields := SplitColon(namesRaw);
            && |entries| == LiteralValue(countText)
            && (forall i :: 0 <= i < |entries| && i < |fields| ==> entries[i].name == Some(fields[i]))
            && (forall i :: 0 <= i < |entries| && |fields| <= i ==> entries[i].name == None)
  {
  }

  /** Names only label descriptors: whether the decoder fails, how many
      entries it returns and their numbers do not depend on `LISTEN_FDNAMES`.
      Every check that can fail comes before the name list is read, so a
      failure carries no descriptors at all. */
  lemma NamesOnlyLabel(listenPid: Option<string>, listenFds: Option<string>, names1: Option<string>, names2: Option<string>, selfPid: u32)
    ensures var r1 := Get(listenPid, listenFds, names1, selfPid);
            var r2 := Get(listenPid, listenFds, names2, selfPid);
            && (r1.Err? <==> r2.Err?)
            && (r1.Err? ==> r1 == Err(MalformedEnv))
            && (r1.Ok? ==>
                  && |r1.value| == |r2.value|
                  && forall i :: 0 <= i < |r1.value| ==> r1.value[i].fd == r2.value[i].fd)
  {
  }

  /** The one-digit count `"3"` used by the examples below. */
  lemma CountThree()
    ensures IsU32Literal("3") && LiteralValue("3") == 3
  {
    assert Digits("3") == "3";
    assert "3"[..0] == [];
  }

  /** The examples below run under the process's own id, spelled canonically. */
  lemma SelfAddressed(selfPid: u32)
    ensures Addressed(Some(FormatDecimal(selfPid)), selfPid)
  {
    ParseFormatRoundTrip(selfPid);
  }

  /** Three descriptors and no name list: three unnamed entries 3, 4, 5. */
  lemma ThreeUnnamed(selfPid: u32)
    ensures Get(Some(FormatDecimal(selfPid)), Some("3"), None, selfPid)
            == Ok([Entry(None, 3), Entry(None, 4), Entry(None, 5)])
  {
    SelfAddressed(selfPid);
    CountThree();
    var r := Get(Some(FormatDecimal(selfPid)), Some("3"), None, selfPid);
    assert Engaged(Some(FormatDecimal(selfPid)), Some("3"), selfPid);
    assert NamesRaw(None) == "";
    assert r.Ok? && |r.value| == 3;
    assert r.value[0] == Expected("", 0);
    assert r.value == [Expected("", 0), Expected("", 1), Expected("", 2)];
  }

  /** Three descriptors under a non-empty name list, given the names the
      list assigns to positions 0, 1 and 2. */
  lemma ThreeNamed(selfPid: u32, namesRaw: string, n0: Option<string>, n1: Option<string>, n2: Option<string>)
    requires NameAt(namesRaw, 0) == n0 && NameAt(namesRaw, 1) == n1 && NameAt(namesRaw, 2) == n2
    ensures Get(Some(FormatDecimal(selfPid)), Some("3"), Some(namesRaw), selfPid)
            == Ok([Entry(n0, 3), Entry(n1, 4), Entry(n2, 5)])
  {
    SelfAddressed(selfPid);
    CountThree();
    var r := Get(Some(FormatDecimal(selfPid)), Some("3"), Some(namesRaw), selfPid);
    assert Engaged(Some(FormatDecimal(selfPid)), Some("3"), selfPid);
    assert NamesRaw(Some(namesRaw)) == namesRaw;
    assert r.Ok? && |r.value| == 3;
    assert r.value == [Expected(namesRaw, 0), Expected(namesRaw, 1), Expected(namesRaw, 2)];
  }

  /** Three descriptors and two names: the third entry is unnamed. */
  lemma ShortNameList(selfPid: u32)
    ensures Get(Some(FormatDecimal(selfPid)), Some("3"), Some("a:b"), selfPid)
            == Ok([Entry(Some("a"), 3), Entry(Some("b"), 4), Entry(None, 5)])
  {
    var fields := ["a", "b"];
    assert JoinColon(fields[1..]) == "b";
    assert JoinColon(fields) == "a:b";
    SplitJoinRoundTrip(fields);
    ThreeNamed(selfPid, "a:b", Some("a"), Some("b"), None);
  }

  /** An empty field between two colons names its descriptor `""`. */
  lemma EmptyFieldIsEmptyName(selfPid: u32)
    ensures Get(Some(FormatDecimal(selfPid)), Some("3"), Some("a::b"), selfPid)
            == Ok([Entry(Some("a"), 3), Entry(Some(""), 4), Entry(Some("b"), 5)])
  {
    SplitInnerEmptyField();
    ThreeNamed(selfPid, "a::b", Some("a"), Some(""), Some("b"));
  }

  /** A non-numeric count for this process is an error. */
  lemma NonNumericCountFails(selfPid: u32)
    ensures Get(Some(FormatDecimal(selfPid)), Some("abc"), None, selfPid) == Err(MalformedEnv)
  {
    SelfAddressed(selfPid);
    ParseRejectsNonDigit("abc", 0);
  }
}
