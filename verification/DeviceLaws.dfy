/** What regrouping a reply promises: index order, independence of the map's order, and a round trip. */
module DeviceLaws {
  import opened Wrappers
  import opened Texts
  import opened Devices

  // ---- What is listed ----

  /** The entries that survive the final filter. */
  function Live(m: ByIndex): ByIndex {
    map i | i in m && m[i].uri != "" :: m[i]
  }

  lemma {:induction false} AscendingIs(s: set<nat>)
    ensures forall k :: k in Ascending(s) <==> k in s
    ensures forall i, j | 0 <= i < j < |Ascending(s)| :: Ascending(s)[i] < Ascending(s)[j]
  {
    if s != {} {
      var k := Least(s);
      AscendingIs(s - {k});
      assert forall x :: x in s <==> x == k || x in s - {k};
      var rest := Ascending(s - {k});
      forall j | 0 <= j < |rest| ensures k < rest[j] { assert rest[j] in s - {k}; }
    }
  }

  lemma {:induction false} ListedLive(m: ByIndex, s: set<nat>)
    ensures Listed(m, Ascending(s)) == Listed(Live(m), Ascending(s * Live(m).Keys))
  {
    if s == {} {
      assert s * Live(m).Keys == {};
    } else {
      var k := Least(s);
      ListedLive(m, s - {k});
      var live := s * Live(m).Keys;
      if k in Live(m) {
        assert k in live && Least(live) <= k <= Least(live);
        assert live - {k} == (s - {k}) * Live(m).Keys;
      } else {
        assert live == (s - {k}) * Live(m).Keys;
      }
    }
  }

  /** Two regroupings with the same live entries list the same devices. */
  lemma SameLive(m: ByIndex, n: ByIndex)
    requires Live(m) == Live(n)
    ensures DeviceList(m) == DeviceList(n)
  {
    ListedLive(m, m.Keys);
    ListedLive(n, n.Keys);
    assert m.Keys * Live(m).Keys == Live(m).Keys;
    assert n.Keys * Live(n).Keys == Live(n).Keys;
  }

  lemma {:induction false} ListedAll(m: ByIndex, indices: seq<nat>)
    requires forall k | k in indices :: k in m && m[k].uri != ""
    ensures |Listed(m, indices)| == |indices|
    ensures forall i | 0 <= i < |indices| :: Listed(m, indices)[i] == m[indices[i]]
  {
    if indices != [] { ListedAll(m, indices[1..]); }
  }

  /** The list is the live entries in strictly increasing order of their indices. */
  lemma InIndexOrder(m: ByIndex) returns (indices: seq<nat>)
    ensures forall i, j | 0 <= i < j < |indices| :: indices[i] < indices[j]
    ensures forall k :: k in indices <==> k in m && m[k].uri != ""
    ensures |DeviceList(m)| == |indices| && forall i | 0 <= i < |indices| :: DeviceList(m)[i] == m[indices[i]]
  {
    indices := Ascending(Live(m).Keys);
    AscendingIs(Live(m).Keys);
    ListedLive(m, m.Keys);
    assert m.Keys * Live(m).Keys == Live(m).Keys;
    ListedAll(Live(m), indices);
  }

  // ---- What each field holds ----

  datatype Slot = Slot(field: Field, index: nat)

  /** The slot a key fills, if it names a field and an index. */
  function SlotOf(key: string): Option<Slot> {
    match ParseKey(key)
    case None => None
    case Some((name, index)) =>
      match FieldNamed(name)
      case None => None
      case Some(f) => Some(Slot(f, index))
  }

  /** The value of the last key visited that fills the slot, or nothing. */
  function LastValue(raw: map<string, string>, order: seq<string>, slot: Slot): string
    requires Known(raw, order)
  {
    if order == [] then ""
    else
      var key := order[|order| - 1];
      if SlotOf(key) == Some(slot) then raw[key] else LastValue(raw, order[..|order| - 1], slot)
  }

  lemma {:induction false} RegroupHolds(raw: map<string, string>, order: seq<string>, slot: Slot)
    requires Known(raw, order)
    ensures var m := Regroup(raw, order);
            if slot.index in m then Get(m[slot.index], slot.field) == LastValue(raw, order, slot)
            else LastValue(raw, order, slot) == ""
  {
    if order != [] { RegroupHolds(raw, order[..|order| - 1], slot); }
  }

  /** The reply as slots see it: nothing but the last values decides what is listed. */
  function DeviceAt(raw: map<string, string>, order: seq<string>, i: nat): Device
    requires Known(raw, order)
  {
    Device(LastValue(raw, order, Slot(Uri, i)), LastValue(raw, order, Slot(DeviceClass, i)),
           LastValue(raw, order, Slot(Info, i)), LastValue(raw, order, Slot(MakeAndModel, i)),
           LastValue(raw, order, Slot(DeviceId, i)), LastValue(raw, order, Slot(Location, i)))
  }

  lemma RegroupAt(raw: map<string, string>, order: seq<string>, i: nat)
    requires Known(raw, order)
    ensures var m := Regroup(raw, order);
            if i in m then m[i] == DeviceAt(raw, order, i) else DeviceAt(raw, order, i) == BLANK
  {
    RegroupHolds(raw, order, Slot(Uri, i));
    RegroupHolds(raw, order, Slot(DeviceClass, i));
    RegroupHolds(raw, order, Slot(Info, i));
    RegroupHolds(raw, order, Slot(MakeAndModel, i));
    RegroupHolds(raw, order, Slot(DeviceId, i));
    RegroupHolds(raw, order, Slot(Location, i));
  }

  /** Two visits that agree at every index with a uri list the same devices. */
  lemma SameDevices(raw: map<string, string>, order: seq<string>, raw': map<string, string>, order': seq<string>)
    requires Known(raw, order) && Known(raw', order')
    requires forall i: nat :: DeviceAt(raw, order, i).uri == DeviceAt(raw', order', i).uri
    requires forall i: nat | DeviceAt(raw, order, i).uri != "" :: DeviceAt(raw, order, i) == DeviceAt(raw', order', i)
    ensures DeviceList(Regroup(raw, order)) == DeviceList(Regroup(raw', order'))
  {
    var m, n := Regroup(raw, order), Regroup(raw', order');
    forall i: nat ensures i in Live(m) <==> i in Live(n) ensures i in Live(m) ==> Live(m)[i] == Live(n)[i] {
      RegroupAt(raw, order, i);
      RegroupAt(raw', order', i);
    }
    assert Live(m) == Live(n);
    SameLive(m, n);
  }

  // ---- Junk ----

  lemma FieldNamedExactly(name: string, f: Field)
    ensures FieldNamed(name) == Some(f) <==> name == NameOf(f)
  {
    assert |"device-uri"| == 10 && |"device-class"| == 12 && |"device-info"| == 11;
    assert |"device-make-and-model"| == 21 && |"device-id"| == 9 && |"device-location"| == 15;
  }

  /** The key is made of a field's name, a colon, and a text that writes an index. */
  ghost predicate Fills(key: string, slot: Slot) {
    exists suffix :: key == NameOf(slot.field) + [':'] + suffix && Writes(suffix, slot.index)
  }

  /** Which slot a key fills can be read off its characters. */
  lemma FillsExactly(key: string, slot: Slot)
    ensures SlotOf(key) == Some(slot) <==> Fills(key, slot)
  {
    RSplitIs(key, ':');
    if SlotOf(key) == Some(slot) {
      var (name, suffix) := RSplitOnce(key, ':').value;
      ParsesExactly(suffix, slot.index);
      FieldNamedExactly(name, slot.field);
    }
    if suffix :| key == NameOf(slot.field) + [':'] + suffix && Writes(suffix, slot.index) {
      ParsesExactly(suffix, slot.index);
      FieldNamedExactly(NameOf(slot.field), slot.field);
      NoColon(suffix, slot.index);
      RSplitJoined(NameOf(slot.field), ':', suffix);
    }
  }

  lemma NoColon(suffix: string, n: nat)
    requires Writes(suffix, n)
    ensures ':' !in suffix
  {
    var digits :| WritesWith(suffix, digits, n);
    assert forall c | c in suffix :: c == '+' || c in digits;
  }

  /** The keys a reply may have to the point: any other is junk. */
  ghost predicate Legible(key: string) {
    exists slot :: Fills(key, slot)
  }

  lemma LegibleExactly(key: string)
    ensures SlotOf(key).Some? <==> Legible(key)
  {
    if SlotOf(key).Some? { FillsExactly(key, SlotOf(key).value); }
    if slot :| Fills(key, slot) { FillsExactly(key, slot); }
  }

  /** A visit without its junk. */
  ghost function Meaningful(order: seq<string>): (r: seq<string>)
    ensures forall k :: k in r <==> k in order && Legible(k)
  {
    if order == [] then []
    else
      var rest := Meaningful(order[..|order| - 1]);
      if Legible(order[|order| - 1]) then rest + [order[|order| - 1]] else rest
  }

  lemma {:induction false} MeaningfulLast(raw: map<string, string>, order: seq<string>, slot: Slot)
    requires Known(raw, order)
    ensures LastValue(raw, Meaningful(order), slot) == LastValue(raw, order, slot)
  {
    hide SlotOf, Legible;
    if order != [] {
      var n := |order| - 1;
      MeaningfulLast(raw, order[..n], slot);
      LegibleExactly(order[n]);
      var r := Meaningful(order);
      if Legible(order[n]) { assert r[..|r| - 1] == Meaningful(order[..n]); }
    }
  }

  /** Keys of any other shape, and fields of any other name, never change the list. */
  lemma JunkIgnored(raw: map<string, string>, order: seq<string>)
    requires Known(raw, order)
    ensures DeviceList(Regroup(raw, order)) == DeviceList(Regroup(raw, Meaningful(order)))
  {
    forall i: nat ensures DeviceAt(raw, order, i) == DeviceAt(raw, Meaningful(order), i) {
      forall f: Field { MeaningfulLast(raw, order, Slot(f, i)); }
      assert forall f: Field :: LastValue(raw, Meaningful(order), Slot(f, i)) == LastValue(raw, order, Slot(f, i));
    }
    SameDevices(raw, order, raw, Meaningful(order));
  }

  // ---- Order independence ----

  /** Two keys of the reply fill one slot with different values, at an index whose device is listed
      or whose uri is what they disagree about. Textual aliases of an index make this possible. */
  ghost predicate Clash(raw: map<string, string>, k: string, l: string) {
    && k in raw && l in raw && raw[k] != raw[l]
    && SlotOf(k).Some? && SlotOf(k) == SlotOf(l)
    && (SlotOf(k).value.field.Uri? || HasUri(raw, SlotOf(k).value.index))
  }

  ghost predicate HasUri(raw: map<string, string>, i: nat) {
    exists u :: u in raw && SlotOf(u) == Some(Slot(Uri, i)) && raw[u] != ""
  }

  ghost predicate Clashes(raw: map<string, string>) {
    exists k, l :: Clash(raw, k, l)
  }

  ghost predicate OrderDoesNotMatter(raw: map<string, string>) {
    forall o, p | Enumerates(o, raw) && Enumerates(p, raw) :: DeviceList(Regroup(raw, o)) == DeviceList(Regroup(raw, p))
  }

  lemma {:induction false} LastValueFrom(raw: map<string, string>, order: seq<string>, slot: Slot)
    requires Known(raw, order)
    ensures if exists k :: k in order && SlotOf(k) == Some(slot)
            then exists k :: k in order && SlotOf(k) == Some(slot) && raw[k] == LastValue(raw, order, slot)
            else LastValue(raw, order, slot) == ""
  {
    if order != [] {
      var n := |order| - 1;
      LastValueFrom(raw, order[..n], slot);
      assert order == order[..n] + [order[n]];
    }
  }

  lemma SameValue(raw: map<string, string>, o: seq<string>, p: seq<string>, slot: Slot)
    requires Enumerates(o, raw) && Enumerates(p, raw)
    requires forall k, l | k in raw && l in raw && SlotOf(k) == Some(slot) && SlotOf(l) == Some(slot) ::
               raw[k] == raw[l]
    ensures LastValue(raw, o, slot) == LastValue(raw, p, slot)
  {
    LastValueFrom(raw, o, slot);
    LastValueFrom(raw, p, slot);
  }

  lemma NoClashSameAt(raw: map<string, string>, o: seq<string>, p: seq<string>, i: nat)
    requires Enumerates(o, raw) && Enumerates(p, raw) && !Clashes(raw)
    ensures DeviceAt(raw, o, i).uri == DeviceAt(raw, p, i).uri
    ensures DeviceAt(raw, o, i).uri != "" ==> DeviceAt(raw, o, i) == DeviceAt(raw, p, i)
  {
    NoClashAgrees(raw, Slot(Uri, i));
    SameValue(raw, o, p, Slot(Uri, i));
    if LastValue(raw, o, Slot(Uri, i)) != "" {
      LastValueFrom(raw, o, Slot(Uri, i));
      assert HasUri(raw, i);
      forall f: Field ensures LastValue(raw, o, Slot(f, i)) == LastValue(raw, p, Slot(f, i)) {
        NoClashAgrees(raw, Slot(f, i));
        SameValue(raw, o, p, Slot(f, i));
      }
    }
  }

  lemma NoClashAgrees(raw: map<string, string>, slot: Slot)
    requires !Clashes(raw) && (slot.field.Uri? || HasUri(raw, slot.index))
    ensures forall k, l | k in raw && l in raw && SlotOf(k) == Some(slot) && SlotOf(l) == Some(slot) :: raw[k] == raw[l]
  {
    forall k, l | k in raw && l in raw && SlotOf(k) == Some(slot) && SlotOf(l) == Some(slot)
      ensures raw[k] == raw[l]
    {
      assert !Clash(raw, k, l);
    }
  }

  // ---- A clash shows ----

  lemma {:induction false} HasOrder(s: set<string>) returns (order: seq<string>)
    ensures forall k :: k in order <==> k in s
    ensures forall i, j | 0 <= i < j < |order| :: order[i] != order[j]
  {
    if s == {} {
      order := [];
    } else {
      var x :| x in s;
      var rest := HasOrder(s - {x});
      order := rest + [x];
      assert forall k :: k in s <==> k == x || k in s - {x};
    }
  }

  lemma LastTwo(raw: map<string, string>, rest: seq<string>, k: string, l: string, slot: Slot)
    requires Known(raw, rest) && k in raw && l in raw
    ensures LastValue(raw, rest + [k, l], slot) ==
            if SlotOf(l) == Some(slot) then raw[l]
            else if SlotOf(k) == Some(slot) then raw[k]
            else LastValue(raw, rest, slot)
  {
    var all := rest + [k, l];
    assert all[..|all| - 1] == rest + [k];
    assert (rest + [k])[..|rest|] == rest;
  }

  lemma {:induction false} ListedDiffer(m: ByIndex, n: ByIndex, i: nat, s: set<nat>)
    requires i in s && i in m && i in n && m[i] != n[i] && (m[i].uri != "" || n[i].uri != "")
    requires forall j | j in s && j != i :: j in m && j in n && m[j] == n[j]
    ensures Listed(m, Ascending(s)) != Listed(n, Ascending(s))
  {
    var k := Least(s);
    var rest := Ascending(s - {k});
    if k == i {
      ListedSame(m, n, s - {k});
      assert Listed(m, rest) == Listed(n, rest);
      var t := Listed(m, rest);
      if m[i].uri == "" {
        assert |t| != |[n[i]] + t|;
      } else if n[i].uri == "" {
        assert |t| != |[m[i]] + t|;
      } else {
        assert ([m[i]] + t)[0] != ([n[i]] + t)[0];
      }
    } else {
      ListedDiffer(m, n, i, s - {k});
      if m[k].uri != "" {
        assert ([m[k]] + Listed(m, rest))[1..] == Listed(m, rest);
        assert ([m[k]] + Listed(n, rest))[1..] == Listed(n, rest);
      }
    }
  }

  lemma {:induction false} ListedSame(m: ByIndex, n: ByIndex, s: set<nat>)
    requires forall j | j in s :: j in m && j in n && m[j] == n[j]
    ensures Listed(m, Ascending(s)) == Listed(n, Ascending(s))
  {
    if s != {} { ListedSame(m, n, s - {Least(s)}); }
  }

  /** Two orders that disagree about one slot only, at an index with a uri, list different devices. */
  lemma DisagreementShows(raw: map<string, string>, o: seq<string>, p: seq<string>, slot: Slot)
    requires Enumerates(o, raw) && Enumerates(p, raw)
    requires LastValue(raw, o, slot) != LastValue(raw, p, slot)
    requires forall f: Field, j: nat | Slot(f, j) != slot ::
               LastValue(raw, o, Slot(f, j)) == LastValue(raw, p, Slot(f, j))
    requires LastValue(raw, o, Slot(Uri, slot.index)) != "" || LastValue(raw, p, Slot(Uri, slot.index)) != ""
    ensures DeviceList(Regroup(raw, o)) != DeviceList(Regroup(raw, p))
  {
    hide LastValue, Regroup;
    var m, n, i := Regroup(raw, o), Regroup(raw, p), slot.index;
    forall j: nat ensures j in m <==> j in n ensures j in m && j != i ==> m[j] == n[j] {
      SameIndices(raw, o, p, j);
      RegroupAt(raw, o, j);
      RegroupAt(raw, p, j);
    }
    RegroupAt(raw, o, i);
    RegroupAt(raw, p, i);
    assert Get(DeviceAt(raw, o, i), slot.field) == LastValue(raw, o, slot);
    assert Get(DeviceAt(raw, p, i), slot.field) == LastValue(raw, p, slot);
    assert m.Keys == n.Keys;
    ListedDiffer(m, n, i, m.Keys);
  }

  /** Moving two clashing keys to the end, in one order and in the other, shows the difference. */
  lemma ClashShows(raw: map<string, string>, k: string, l: string)
    requires Clash(raw, k, l)
    requires SlotOf(k).value.field.Uri? || forall u, v | Clash(raw, u, v) :: !SlotOf(u).value.field.Uri?
    ensures !OrderDoesNotMatter(raw)
  {
    hide LastValue, SlotOf, DeviceList;
    var slot := SlotOf(k).value;
    var rest := HasOrder(raw.Keys - {k, l});
    var o, p := rest + [k, l], rest + [l, k];
    TwoAtTheEnd(raw, rest, k, l);
    TwoAtTheEnd(raw, rest, l, k);
    forall f: Field, j: nat
      ensures LastValue(raw, o, Slot(f, j)) ==
              if Slot(f, j) == slot then raw[l] else LastValue(raw, rest, Slot(f, j))
      ensures LastValue(raw, p, Slot(f, j)) ==
              if Slot(f, j) == slot then raw[k] else LastValue(raw, rest, Slot(f, j))
    {
      LastTwo(raw, rest, k, l, Slot(f, j));
      LastTwo(raw, rest, l, k, Slot(f, j));
    }
    assert slot == Slot(slot.field, slot.index);
    if !slot.field.Uri? {
      UriStands(raw, o, slot.index);
    }
    DisagreementShows(raw, o, p, slot);
  }

  lemma TwoAtTheEnd(raw: map<string, string>, rest: seq<string>, k: string, l: string)
    requires k in raw && l in raw && k != l
    requires forall x :: x in rest <==> x in raw.Keys - {k, l}
    requires forall i, j | 0 <= i < j < |rest| :: rest[i] != rest[j]
    ensures Known(raw, rest) && Enumerates(rest + [k, l], raw)
  {
    var all := rest + [k, l];
    forall x ensures x in all <==> x in raw {
      assert x in all <==> x in rest || x == k || x == l;
    }
    forall i, j | 0 <= i < j < |all| ensures all[i] != all[j] {
      if i < |rest| { assert rest[i] in rest; }
    }
  }

  /** An index is in the map exactly when some key names it. */
  lemma {:induction false} IndexIn(raw: map<string, string>, order: seq<string>, i: nat)
    requires Known(raw, order)
    ensures i in Regroup(raw, order) <==>
            exists k :: k in order && ParseKey(k).Some? && ParseKey(k).value.1 == i
  {
    if order != [] {
      IndexIn(raw, order[..|order| - 1], i);
      assert order == order[..|order| - 1] + [order[|order| - 1]];
    }
  }

  lemma SameIndices(raw: map<string, string>, o: seq<string>, p: seq<string>, i: nat)
    requires Enumerates(o, raw) && Enumerates(p, raw)
    ensures i in Regroup(raw, o) <==> i in Regroup(raw, p)
    ensures (exists k :: k in raw && SlotOf(k).Some? && SlotOf(k).value.index == i) ==> i in Regroup(raw, o)
  {
    IndexIn(raw, o, i);
    IndexIn(raw, p, i);
  }

  /** If uris do not clash, an index with a uri keeps it in every order. */
  lemma UriStands(raw: map<string, string>, o: seq<string>, i: nat)
    requires Enumerates(o, raw) && HasUri(raw, i)
    requires forall u, v | Clash(raw, u, v) :: !SlotOf(u).value.field.Uri?
    ensures LastValue(raw, o, Slot(Uri, i)) != ""
  {
    LastValueFrom(raw, o, Slot(Uri, i));
    var u :| u in raw && SlotOf(u) == Some(Slot(Uri, i)) && raw[u] != "";
    var v :| v in o && SlotOf(v) == Some(Slot(Uri, i)) && raw[v] == LastValue(raw, o, Slot(Uri, i));
    assert !Clash(raw, u, v);
  }

  /** For any reply at all, the list is the same in every order of the map exactly when no two keys clash. */
  lemma OrderIndependentExactly(raw: map<string, string>)
    ensures OrderDoesNotMatter(raw) <==> !Clashes(raw)
  {
    if Clashes(raw) {
      if u, v :| Clash(raw, u, v) && SlotOf(u).value.field.Uri? {
        ClashShows(raw, u, v);
      } else {
        var k, l :| Clash(raw, k, l);
        ClashShows(raw, k, l);
      }
    } else {
      forall o, p | Enumerates(o, raw) && Enumerates(p, raw)
        ensures DeviceList(Regroup(raw, o)) == DeviceList(Regroup(raw, p))
      {
        forall i: nat { NoClashSameAt(raw, o, p, i); }
        SameDevices(raw, o, raw, p);
      }
    }
  }

  lemma AliasSlot(digits: string)
    requires digits == "0" || digits == "00"
    ensures SlotOf("device-uri" + [':'] + digits) == Some(Slot(Uri, 0))
  {
    hide RSplitOnce;
    RSplitJoined("device-uri", ':', digits);
    assert digits[..|digits| - 1] == if digits == "0" then "" else "0";
    assert "0"[..0] == "" && Value("0") == Value("") * 10 + DigitOf('0') == 0;
    assert Value(digits) == Value(digits[..|digits| - 1]) * 10 + DigitOf('0') == 0;
  }

  lemma TwoUris(raw: map<string, string>, k: string, l: string, i: nat)
    requires k in raw && l in raw && raw[k] != raw[l] && SlotOf(k) == SlotOf(l) == Some(Slot(Uri, i))
    ensures Clashes(raw) && !OrderDoesNotMatter(raw)
  {
    assert Clash(raw, k, l);
    OrderIndependentExactly(raw);
  }

  /** It does not always: `0` and `00` are one index, and whichever is visited last wins. */
  lemma AliasesClash()
    ensures var raw := map["device-uri:0" := "a", "device-uri:00" := "b"];
            Clashes(raw) && !OrderDoesNotMatter(raw)
  {
    var raw := map["device-uri:0" := "a", "device-uri:00" := "b"];
    AliasSlot("0");
    AliasSlot("00");
    assert "device-uri" + [':'] + "0" == "device-uri:0" && "device-uri" + [':'] + "00" == "device-uri:00";
    assert "a"[0] != "b"[0] && |"device-uri:0"| != |"device-uri:00"|;
    TwoUris(raw, "device-uri:0", "device-uri:00", 0);
  }

  // ---- Round trip ----

  function KeyFor(f: Field, i: nat): string {
    NameOf(f) + [':'] + Decimal(i)
  }

  lemma KeySlot(f: Field, i: nat)
    requires i <= U32_MAX
    ensures SlotOf(KeyFor(f, i)) == Some(Slot(f, i))
  {
    DecimalValue(i);
    RSplitJoined(NameOf(f), ':', Decimal(i));
    ParseDecimal(i);
    FieldNamedExactly(NameOf(f), f);
  }

  /** The keys as the mechanism spells them. */
  lemma KeysSpelled(i: nat)
    ensures KeyFor(Uri, i) == "device-uri:" + Decimal(i)
    ensures KeyFor(DeviceClass, i) == "device-class:" + Decimal(i)
    ensures KeyFor(Info, i) == "device-info:" + Decimal(i)
    ensures KeyFor(MakeAndModel, i) == "device-make-and-model:" + Decimal(i)
    ensures KeyFor(DeviceId, i) == "device-id:" + Decimal(i)
    ensures KeyFor(Location, i) == "device-location:" + Decimal(i)
  {
  }

  /** A reply that says just what these devices are: any keys that fill a slot carry the device's own
      value, and a missing key only where that value is empty. */
  ghost predicate Describes(raw: map<string, string>, ds: seq<Device>) {
    && (forall k | k in raw && SlotOf(k).Some? ::
          SlotOf(k).value.index < |ds| && raw[k] == Get(ds[SlotOf(k).value.index], SlotOf(k).value.field))
    && (forall f: Field, i: nat | i < |ds| && Get(ds[i], f) != "" ::
          exists k :: k in raw && SlotOf(k) == Some(Slot(f, i)))
  }

  /** The devices that have a uri. */
  function Addressable(ds: seq<Device>): seq<Device> {
    if ds == [] then []
    else
      var rest := Addressable(ds[1..]);
      if ds[0].uri != "" then [ds[0]] + rest else rest
  }

  lemma DescribedAt(raw: map<string, string>, ds: seq<Device>, order: seq<string>, i: nat)
    requires Describes(raw, ds) && Enumerates(order, raw)
    ensures DeviceAt(raw, order, i) == if i < |ds| then ds[i] else BLANK
  {
    forall f: Field ensures LastValue(raw, order, Slot(f, i)) == if i < |ds| then Get(ds[i], f) else "" {
      LastValueFrom(raw, order, Slot(f, i));
    }
  }

  lemma {:induction false} ListedFrom(m: ByIndex, ds: seq<Device>, from: nat, s: set<nat>)
    requires from <= |ds| && forall i: nat | i < |ds| :: i in m && m[i] == ds[i]
    requires forall i: nat :: i in s <==> from <= i < |ds|
    ensures Listed(m, Ascending(s)) == Addressable(ds[from..])
    decreases |ds| - from
  {
    if from < |ds| {
      assert from in s && Least(s) <= from <= Least(s);
      ListedFrom(m, ds, from + 1, s - {from});
      assert ds[from..][1..] == ds[from + 1..];
    } else {
      assert s == {};
    }
  }

  /** A reply that describes these devices decodes, in any order, to those of them that have a uri. */
  lemma DecodesBack(raw: map<string, string>, ds: seq<Device>, order: seq<string>)
    requires Describes(raw, ds) && Enumerates(order, raw)
    ensures DeviceList(Regroup(raw, order)) == Addressable(ds)
  {
    var m := Regroup(raw, order);
    var n: ByIndex := map i: nat | i < |ds| :: ds[i];
    forall i: nat ensures i in Live(m) <==> i in Live(n) ensures i in Live(m) ==> Live(m)[i] == Live(n)[i] {
      RegroupAt(raw, order, i);
      DescribedAt(raw, ds, order, i);
    }
    assert Live(m) == Live(n);
    SameLive(m, n);
    ListedFrom(n, ds, 0, n.Keys);
    assert ds[0..] == ds;
  }

  const FIELDS: seq<Field> := [Uri, DeviceClass, Info, MakeAndModel, DeviceId, Location]

  function RenderOne(d: Device, i: nat, fields: seq<Field>): map<string, string> {
    if fields == [] then map[]
    else
      var f := fields[|fields| - 1];
      RenderOne(d, i, fields[..|fields| - 1])[KeyFor(f, i) := Get(d, f)]
  }

  /** The reply as the mechanism prints it: every field of every device under its name and its
      position in decimal. */
  function Render(ds: seq<Device>): map<string, string> {
    if ds == [] then map[]
    else
      var n := |ds| - 1;
      Render(ds[..n]) + RenderOne(ds[n], n, FIELDS)
  }

  /** Every key fills a slot of this index with the device's own value. */
  ghost predicate Carries(m: map<string, string>, d: Device, i: nat) {
    forall k | k in m :: SlotOf(k).Some? && SlotOf(k).value.index == i && m[k] == Get(d, SlotOf(k).value.field)
  }

  lemma CarriesNone(d: Device, i: nat)
    ensures Carries(map[], d, i)
  {
  }

  lemma CarriesMore(m: map<string, string>, d: Device, i: nat, f: Field)
    requires i <= U32_MAX && Carries(m, d, i)
    ensures Carries(m[KeyFor(f, i) := Get(d, f)], d, i)
  {
    KeySlot(f, i);
  }

  lemma {:induction false} RenderOneHas(d: Device, i: nat, fields: seq<Field>)
    requires i <= U32_MAX
    ensures Carries(RenderOne(d, i, fields), d, i)
    ensures forall f | f in fields :: KeyFor(f, i) in RenderOne(d, i, fields)
  {
    hide Carries, KeyFor;
    if fields == [] {
      CarriesNone(d, i);
    } else {
      var n := |fields| - 1;
      RenderOneHas(d, i, fields[..n]);
      CarriesMore(RenderOne(d, i, fields[..n]), d, i, fields[n]);
      assert fields == fields[..n] + [fields[n]];
    }
  }

  /** The key fills a slot of one of these devices, with the value that belongs there. */
  predicate Fits(key: string, value: string, ds: seq<Device>) {
    var slot := SlotOf(key);
    slot.Some? && slot.value.index < |ds| && value == Get(ds[slot.value.index], slot.value.field)
  }

  lemma FitsMore(key: string, value: string, ds: seq<Device>, d: Device)
    requires Fits(key, value, ds)
    ensures Fits(key, value, ds + [d])
  {
  }

  /** Every key fits, and every slot has its canonical key. */
  ghost predicate Prints(m: map<string, string>, ds: seq<Device>) {
    && (forall k | k in m :: Fits(k, m[k], ds))
    && (forall f: Field, i: nat | i < |ds| :: KeyFor(f, i) in m)
  }

  /** A stretch of keys that fit, with a canonical key for every slot of the next device. */
  ghost predicate PrintsNext(last: map<string, string>, ds: seq<Device>, d: Device) {
    && (forall k | k in last :: Fits(k, last[k], ds + [d]))
    && (forall f: Field :: KeyFor(f, |ds|) in last)
  }

  lemma PrintsMore(front: map<string, string>, last: map<string, string>, ds: seq<Device>, d: Device)
    requires Prints(front, ds) && PrintsNext(last, ds, d)
    ensures Prints(front + last, ds + [d])
  {
    var m := front + last;
    forall k | k in m ensures Fits(k, m[k], ds + [d]) {
      if k !in last { FitsMore(k, front[k], ds, d); }
    }
    forall f: Field, i: nat | i < |ds + [d]| ensures KeyFor(f, i) in m {
      if i == |ds| {
        assert KeyFor(f, |ds|) in last;
      }
    }
  }

  lemma RenderOnePrints(d: Device, ds: seq<Device>)
    requires |ds| <= U32_MAX
    ensures PrintsNext(RenderOne(d, |ds|, FIELDS), ds, d)
  {
    RenderOneHas(d, |ds|, FIELDS);
    forall f: Field ensures KeyFor(f, |ds|) in RenderOne(d, |ds|, FIELDS) { Listable(f); }
  }

  ghost predicate RenderedWell(ds: seq<Device>) {
    Prints(Render(ds), ds)
  }

  lemma RenderedNone(ds: seq<Device>)
    requires ds == []
    ensures RenderedWell(ds)
  {
  }

  lemma {:induction false} RenderPrints(ds: seq<Device>, n: nat)
    requires n <= |ds| <= U32_MAX + 1
    ensures RenderedWell(ds[..n])
  {
    hide KeyFor, Fits;
    if n == 0 {
      RenderedNone(ds[..n]);
    } else {
      var front, d := ds[..n - 1], ds[n - 1];
      RenderPrints(ds, n - 1);
      RenderOnePrints(d, front);
      PrintsMore(Render(front), RenderOne(d, n - 1, FIELDS), front, d);
      assert ds[..n] == front + [d] && ds[..n][..n - 1] == front;
      assert Render(ds[..n]) == Render(front) + RenderOne(d, n - 1, FIELDS);
    }
  }

  lemma Listable(f: Field)
    ensures f in FIELDS
  {
    assert FIELDS[0] == Uri && FIELDS[1] == DeviceClass && FIELDS[2] == Info;
    assert FIELDS[3] == MakeAndModel && FIELDS[4] == DeviceId && FIELDS[5] == Location;
  }

  /** Printing any list of devices and decoding the reply, in any order, gives back those with a uri,
      in their original order. */
  lemma RoundTrip(ds: seq<Device>, order: seq<string>)
    requires |ds| <= U32_MAX + 1 && Enumerates(order, Render(ds))
    ensures DeviceList(Regroup(Render(ds), order)) == Addressable(ds)
  {
    RenderPrints(ds, |ds|);
    assert ds[..|ds|] == ds;
    assert forall k | k in Render(ds) :: Fits(k, Render(ds)[k], ds);
    forall f: Field, i: nat | i < |ds| ensures exists k :: k in Render(ds) && SlotOf(k) == Some(Slot(f, i)) {
      KeySlot(f, i);
      assert KeyFor(f, i) in Render(ds);
    }
    DecodesBack(Render(ds), ds, order);
  }
}
