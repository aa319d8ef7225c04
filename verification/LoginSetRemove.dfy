/** `set` followed by `remove`: on a path written by `set`, removing options leaves
    exactly the path that `set` would have written without them. */
module LoginSetRemove {
  import opened Optional
  import opened LoginStore
  import opened LoginCommands

  /** The five option slots of a login, in the order in which they are written. */
  function Slots(login: Login): seq<Option<string>> {
    [login.user, login.password, login.host, login.socket, login.port]
  }

  /** The line of slot `i`: only the port is not quoted. */
  function SlotLine(i: nat, v: Option<string>): seq<string>
    requires i < 5
  {
    match v
    case None => []
    case Some(s) => [OptionName(i) + " = " + if i == 4 then s else Quoted(s)]
  }

  /** The lines of the slots from `i` on. */
  function SlotLines(slots: seq<Option<string>>, i: nat): seq<string>
    requires i <= |slots| == 5
    decreases 5 - i
  {
    if i == 5 then [] else SlotLine(i, slots[i]) + SlotLines(slots, i + 1)
  }

  lemma OptionsAreSlots(login: Login)
    ensures Options(login) == SlotLines(Slots(login), 0)
  {
    hide Quoted, SlotLine, QuotedOption;
    var s := Slots(login);
    assert SlotLines(s, 5) == [];
    assert SlotLines(s, 4) == SlotLine(4, s[4]);
    assert SlotLines(s, 3) == SlotLine(3, s[3]) + SlotLine(4, s[4]);
    assert SlotLines(s, 2) == SlotLine(2, s[2]) + (SlotLine(3, s[3]) + SlotLine(4, s[4]));
    assert SlotLines(s, 1) == SlotLine(1, s[1]) + (SlotLine(2, s[2]) + (SlotLine(3, s[3]) + SlotLine(4, s[4])));
    QuotedSlot(0, s[0]);
    QuotedSlot(1, s[1]);
    QuotedSlot(2, s[2]);
    QuotedSlot(3, s[3]);
    PortSlot(s[4]);
  }

  lemma QuotedSlot(i: nat, v: Option<string>)
    requires i < 4
    ensures SlotLine(i, v) == QuotedOption(OptionName(i), v)
  {
  }

  lemma PortSlot(v: Option<string>)
    ensures SlotLine(4, v) == match v case None => [] case Some(p) => ["port = " + p]
  {
    assert v.Some? ==> OptionName(4) + " = " + v.value == "port = " + v.value;
  }

  lemma WithoutLineConcat(a: seq<string>, b: seq<string>, option: string)
    requires forall i :: 0 <= i < |a| ==> !(option <= a[i])
    ensures WithoutLine(a + b, option) == a + WithoutLine(b, option)
  {
    if a == [] {
      assert a + b == b;
    } else {
      assert (a + b)[0] == a[0] && (a + b)[1..] == a[1..] + b;
      WithoutLineConcat(a[1..], b, option);
    }
  }

  /** No line from slot `i` on begins with the name of an earlier slot. */
  lemma {:induction false} NotLater(slots: seq<Option<string>>, i: nat, k: nat)
    requires |slots| == 5 && k < i <= 5
    ensures WithoutLine(SlotLines(slots, i), OptionName(k)) == SlotLines(slots, i)
    decreases 5 - i
  {
    hide Quoted, OptionName;
    if i < 5 {
      NotLater(slots, i + 1, k);
      var line := SlotLine(i, slots[i]);
      if slots[i].Some? {
        NamesPrefixFree(k, i, if i == 4 then slots[i].value else Quoted(slots[i].value));
      }
      WithoutLineConcat(line, SlotLines(slots, i + 1), OptionName(k));
    }
  }

  /** Removing an option empties its slot. */
  lemma {:induction false} DropSlot(slots: seq<Option<string>>, i: nat, k: nat)
    requires |slots| == 5 && i <= k < 5
    ensures WithoutLine(SlotLines(slots, i), OptionName(k)) == SlotLines(slots[k := None], i)
    decreases 5 - i
  {
    hide Quoted, OptionName;
    var line, rest := SlotLine(i, slots[i]), SlotLines(slots, i + 1);
    if slots[i].Some? {
      NamesPrefixFree(k, i, if i == 4 then slots[i].value else Quoted(slots[i].value));
    }
    if i < k {
      WithoutLineConcat(line, rest, OptionName(k));
      DropSlot(slots, i + 1, k);
    } else {
      SameLater(slots, slots[k := None], i + 1);
      if slots[i].Some? {
        assert (line + rest)[0] == line[0] && (line + rest)[1..] == rest;
      } else {
        assert line + rest == rest;
        NotLater(slots, i + 1, k);
      }
    }
  }

  lemma {:induction false} SameLater(a: seq<Option<string>>, b: seq<Option<string>>, i: nat)
    requires |a| == |b| == 5 && i <= 5 && forall j :: i <= j < 5 ==> a[j] == b[j]
    ensures SlotLines(a, i) == SlotLines(b, i)
    decreases 5 - i
  {
    if i < 5 {
      SameLater(a, b, i + 1);
    }
  }

  /** What `remove` keeps of a login. */
  function Kept(login: Login, r: Removal): Login {
    Login(if r.user then None else login.user, if r.password then None else login.password,
          if r.host then None else login.host, if r.socket then None else login.socket,
          if r.port then None else login.port)
  }

  lemma WithoutOptionOfLast(store: Store, p: Path, option: string)
    requires forall i :: 0 <= i < |store| ==> store[i].name != p.name
    ensures WithoutOption(store + [p], p.name, option) == store + [p.(options := WithoutLine(p.options, option))]
  {
    hide WithoutLine;
    var s := store + [p];
    assert s[|store|].name == p.name;
    assert IndexOf(s, p.name) == |store|;
    assert s[..|store|] == store && s[|store| + 1..] == [];
  }

  /** One flagged option of the last path. */
  lemma DropOption(store: Store, name: string, slots: seq<Option<string>>, flag: bool, k: nat)
    requires |slots| == 5 && k < 5 && forall i :: 0 <= i < |store| ==> store[i].name != name
    ensures WithoutIf(store + [Path(name, SlotLines(slots, 0))], flag, name, OptionName(k)) ==
            store + [Path(name, SlotLines(if flag then slots[k := None] else slots, 0))]
  {
    hide WithoutLine, SlotLines, OptionName, WithoutOption;
    if flag {
      WithoutOptionOfLast(store, Path(name, SlotLines(slots, 0)), OptionName(k));
      DropSlot(slots, 0, k);
    }
  }

  /** Main result. */
  lemma SetThenRemove(store: Store, name: string, login: Login, r: Removal)
    requires GoodStore(store) && r != Removal(false, false, false, false, false)
    ensures Removed(WithPath(store, Path(name, Options(login))), name, r) ==
            WithPath(store, Path(name, Options(Kept(login, r))))
  {
    hide SlotLines, WithoutIf, WithoutPath, Options, WithoutOption;
    WithoutPathGood(store, name);
    OptionsAreSlots(login);
    OptionsAreSlots(Kept(login, r));
    var others := WithoutPath(store, name);
    var s0 := Slots(login);
    var s1 := if r.user then s0[0 := None] else s0;
    var s2 := if r.password then s1[1 := None] else s1;
    var s3 := if r.host then s2[2 := None] else s2;
    var s4 := if r.socket then s3[3 := None] else s3;
    var s5 := if r.port then s4[4 := None] else s4;
    DropOption(others, name, s0, r.user, 0);
    DropOption(others, name, s1, r.password, 1);
    DropOption(others, name, s2, r.host, 2);
    DropOption(others, name, s3, r.socket, 3);
    DropOption(others, name, s4, r.port, 4);
    assert s5 == Slots(Kept(login, r));
  }

  /** Without any option named, the whole path is removed, and only that. */
  lemma SetThenRemoveAll(store: Store, name: string, login: Login)
    requires GoodStore(store)
    ensures var r := Removed(WithPath(store, Path(name, Options(login))), name, Removal(false, false, false, false, false));
            r == WithoutPath(store, name) && forall p :: p in r <==> p in store && p.name != name
  {
    hide Options, GoodStore;
    WithoutPathGood(store, name);
    var path, others := Path(name, Options(login)), WithoutPath(store, name);
    var s := others + [path];
    assert s[|others|].name == name;
    assert IndexOf(s, name) == |others|;
    assert s[..|others|] == others && s[|others| + 1..] == [];
    var k := IndexOf(store, name);
    if k < |store| {
      assert store == store[..k] + [store[k]] + store[k + 1..];
    }
    forall p
      ensures p in others <==> p in store && p.name != name
    {
      assert p in others ==> p.name != name;
    }
  }
}
