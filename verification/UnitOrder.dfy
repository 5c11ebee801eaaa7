/** When the order of an object's units shows in its document (index/extract.go).

Everything of a document but its text forgets the order of the units.  The text keeps it: its
parts stand in the order in which the units that have text come first. */
module UnitOrder {
  import opened Kernel
  import opened Knowledge
  import opened Compile
  import Text

  // ------------------------------------------------------------ lists without repetitions

  /** `acc`, then what is new in `s`, where it comes first. */
  function Firsts<T(==)>(acc: seq<T>, s: seq<T>): seq<T>
    decreases s
  {
    if s == [] then acc else Firsts(if s[0] in acc then acc else acc + [s[0]], s[1..])
  }

  lemma FirstsOne<T>(acc: seq<T>, x: T)
    ensures Firsts(acc, [x]) == if x in acc then acc else acc + [x]
  {
    assert [x][1..] == [];
  }

  lemma {:induction false} FirstsConcat<T>(acc: seq<T>, s: seq<T>, t: seq<T>)
    ensures Firsts(acc, s + t) == Firsts(Firsts(acc, s), t)
    decreases s
  {
    if s == [] {
      assert s + t == t;
    } else {
      assert (s + t)[1..] == s[1..] + t;
      FirstsConcat(if s[0] in acc then acc else acc + [s[0]], s[1..], t);
    }
  }

  lemma {:induction false} FirstsMembers<T(!new)>(acc: seq<T>, s: seq<T>)
    ensures forall x :: x in Firsts(acc, s) <==> x in acc || x in s
    ensures acc <= Firsts(acc, s)
    decreases s
  {
    if s != [] {
      assert s == [s[0]] + s[1..];
      FirstsMembers(if s[0] in acc then acc else acc + [s[0]], s[1..]);
    }
  }

  lemma {:induction false} NothingNew<T>(acc: seq<T>, s: seq<T>)
    requires forall x :: x in s ==> x in acc
    ensures Firsts(acc, s) == acc
  {
    if s != [] {
      assert s[0] in s;
      NothingNew(acc, s[1..]);
    }
  }

  lemma {:induction false} AllNew<T>(acc: seq<T>, own: seq<T>, s: seq<T>)
    requires forall x :: x in s ==> x !in acc
    ensures Firsts(acc + own, s) == acc + Firsts(own, s)
    decreases s
  {
    if s == [] {
    } else {
      assert s[0] in s;
      if s[0] in own {
        AllNew(acc, own, s[1..]);
      } else {
        assert (acc + own) + [s[0]] == acc + (own + [s[0]]);
        AllNew(acc, own + [s[0]], s[1..]);
      }
    }
  }

  // ------------------------------------------------------------ the cells as they are met

  function ItemCells(env: Env, f: Field, items: seq<Json>): (r: seq<Cell>)
    ensures forall c :: c in r ==> c == CellFor(f, c.value)
  {
    if items == [] || env.normalize(f.kind, items[0]).None? then []
    else [CellFor(f, env.normalize(f.kind, items[0]).value)] + ItemCells(env, f, items[1..])
  }

  function FieldCells(env: Env, u: Unit, presented: Json, fields: seq<Field>): seq<Cell>
  {
    if fields == [] then []
    else (if Applies(env, u, fields[0]) then ItemCells(env, fields[0], Items(presented, fields[0])) else []) +
         FieldCells(env, u, presented, fields[1..])
  }

  /** What one unit says, in order, repetitions included. */
  function UnitCells(env: Env, value: KnowledgeValue, observations: seq<Observation>, fields: seq<Field>, u: Unit): seq<Cell>
  {
    if Presents(value, observations, u) then FieldCells(env, u, Presented(value, observations, u).value.value, fields) else []
  }

  function Met(env: Env, value: KnowledgeValue, observations: seq<Observation>, fields: seq<Field>, units: seq<Unit>): seq<Cell>
  {
    if units == [] then []
    else UnitCells(env, value, observations, fields, units[0]) + Met(env, value, observations, fields, units[1..])
  }

  lemma WithCellIsFirsts(fields: seq<Field>, g: Gathered, c: Cell)
    requires WellFormed(fields) && Good(fields, g) && Shaped(fields, c)
    ensures WithCell(g, c).cells == Firsts(g.cells, [c])
  {
    if Seen(g.cells, Identity(c)) {
      var d :| d in g.cells && Identity(d) == Identity(c);
      IdentityDetermines(fields, c, d);
    }
    assert [c][1..] == [];
  }

  lemma {:induction false} ItemsAreFirsts(env: Env, fields: seq<Field>, f: Field, items: seq<Json>, g: Gathered)
    requires WellFormed(fields) && f in fields && Good(fields, g) && AddItems(env, f, items, g).Success?
    ensures AddItems(env, f, items, g).value.cells == Firsts(g.cells, ItemCells(env, f, items))
  {
    if items != [] {
      var c := CellFor(f, env.normalize(f.kind, items[0]).value);
      assert Shaped(fields, c);
      WithCellKeeps(fields, g, c);
      WithCellIsFirsts(fields, g, c);
      ItemsAreFirsts(env, fields, f, items[1..], WithCell(g, c));
      FirstsConcat(g.cells, [c], ItemCells(env, f, items[1..]));
    }
  }

  lemma {:induction false} FieldsAreFirsts(env: Env, all: seq<Field>, u: Unit, presented: Json, fields: seq<Field>, g: Gathered)
    requires WellFormed(all) && (forall f :: f in fields ==> f in all) && Good(all, g)
    requires AddFields(env, u, presented, fields, g).Success?
    ensures AddFields(env, u, presented, fields, g).value.cells == Firsts(g.cells, FieldCells(env, u, presented, fields))
  {
    if fields != [] {
      var f := fields[0];
      if !Applies(env, u, f) {
        FieldsAreFirsts(env, all, u, presented, fields[1..], g);
        assert FieldCells(env, u, presented, fields) == FieldCells(env, u, presented, fields[1..]);
      } else {
        var h := WithField(g, FieldKey(f));
        WithFieldKeeps(all, g, FieldKey(f));
        AddItemsMeans(env, all, f, Items(presented, f), h);
        var next := AddItems(env, f, Items(presented, f), h).value;
        ItemsAreFirsts(env, all, f, Items(presented, f), h);
        FieldsAreFirsts(env, all, u, presented, fields[1..], next);
        FirstsConcat(g.cells, ItemCells(env, f, Items(presented, f)), FieldCells(env, u, presented, fields[1..]));
      }
    }
  }

  /** The gathered cells are the met ones without repetitions. */
  lemma {:induction false} UnitsAreFirsts(env: Env, value: KnowledgeValue, observations: seq<Observation>, fields: seq<Field>,
                                         units: seq<Unit>, g: Gathered)
    requires WellFormed(fields) && Good(fields, g) && AddUnits(env, value, observations, fields, units, g).Success?
    ensures AddUnits(env, value, observations, fields, units, g).value.cells == Firsts(g.cells, Met(env, value, observations, fields, units))
  {
    if units != [] {
      var u := units[0];
      var p := Presented(value, observations, u).value;
      if p.None? {
        UnitsAreFirsts(env, value, observations, fields, units[1..], g);
        assert Met(env, value, observations, fields, units) == Met(env, value, observations, fields, units[1..]);
      } else {
        AddFieldsMeans(env, fields, u, p.value, fields, g);
        FieldsAreFirsts(env, fields, u, p.value, fields, g);
        UnitsAreFirsts(env, value, observations, fields, units[1..], AddFields(env, u, p.value, fields, g).value);
        FirstsConcat(g.cells, UnitCells(env, value, observations, fields, u), Met(env, value, observations, fields, units[1..]));
      }
    }
  }

  // ---------------------------------------------------------------- the cells that have text

  function Speaking(cells: seq<Cell>): (r: seq<Cell>)
    ensures forall c :: c in r <==> c in cells && c.text != ""
  {
    if cells == [] then []
    else (if cells[0].text != "" then [cells[0]] else []) + Speaking(cells[1..])
  }

  lemma {:induction false} SpeakingConcat(s: seq<Cell>, t: seq<Cell>)
    ensures Speaking(s + t) == Speaking(s) + Speaking(t)
  {
    if s == [] {
      assert s + t == t;
    } else {
      assert (s + t)[1..] == s[1..] + t;
      SpeakingConcat(s[1..], t);
    }
  }

  lemma {:induction false} TextsConcat(s: seq<Cell>, t: seq<Cell>)
    ensures Texts(s + t) == Texts(s) + Texts(t)
  {
    if s == [] {
      assert s + t == t;
    } else {
      assert (s + t)[1..] == s[1..] + t;
      TextsConcat(s[1..], t);
    }
  }

  lemma {:induction false} TextsOfSpeaking(s: seq<Cell>)
    ensures Texts(Speaking(s)) == Texts(s)
  {
    if s != [] {
      TextsOfSpeaking(s[1..]);
      TextsConcat(if s[0].text != "" then [s[0]] else [], Speaking(s[1..]));
      assert [s[0]][1..] == [];
    }
  }

  lemma SpeakingNext(acc: seq<Cell>, c: Cell)
    ensures Speaking(if c in acc then acc else acc + [c]) == Firsts(Speaking(acc), Speaking([c]))
  {
    SpeakingConcat(acc, [c]);
    assert [c][1..] == [];
    assert Speaking([c]) == if c.text != "" then [c] else [];
    FirstsOne(Speaking(acc), c);
  }

  lemma {:induction false} SpeakingFirsts(acc: seq<Cell>, s: seq<Cell>)
    ensures Speaking(Firsts(acc, s)) == Firsts(Speaking(acc), Speaking(s))
    decreases s
  {
    if s != [] {
      var c := s[0];
      SpeakingNext(acc, c);
      SpeakingFirsts(if c in acc then acc else acc + [c], s[1..]);
      assert s == [c] + s[1..];
      SpeakingConcat([c], s[1..]);
      FirstsConcat(Speaking(acc), Speaking([c]), Speaking(s[1..]));
    }
  }

  /** What one unit adds to the text. */
  function Voice(env: Env, value: KnowledgeValue, observations: seq<Observation>, fields: seq<Field>, u: Unit): seq<Cell>
  {
    Speaking(UnitCells(env, value, observations, fields, u))
  }

  function Voices(env: Env, value: KnowledgeValue, observations: seq<Observation>, fields: seq<Field>, units: seq<Unit>): seq<Cell>
  {
    if units == [] then []
    else Voice(env, value, observations, fields, units[0]) + Voices(env, value, observations, fields, units[1..])
  }

  lemma {:induction false} SpeakingMet(env: Env, value: KnowledgeValue, observations: seq<Observation>, fields: seq<Field>, units: seq<Unit>)
    ensures Speaking(Met(env, value, observations, fields, units)) == Voices(env, value, observations, fields, units)
  {
    if units != [] {
      SpeakingConcat(UnitCells(env, value, observations, fields, units[0]), Met(env, value, observations, fields, units[1..]));
      SpeakingMet(env, value, observations, fields, units[1..]);
    }
  }

  /** The text of a document, from what its units say. */
  function TextParts(env: Env, value: KnowledgeValue, observations: seq<Observation>, fields: seq<Field>): seq<string>
  {
    Texts(Firsts([], Voices(env, value, observations, fields, Units(env, value))))
  }

  lemma TextMeans(env: Env, value: KnowledgeValue, observations: seq<Observation>, fields: seq<Field>)
    requires WellFormed(fields) && Document(env, value, observations, fields).Success?
    ensures Document(env, value, observations, fields).value.text == Join(TextParts(env, value, observations, fields))
  {
    var met := Met(env, value, observations, fields, Units(env, value));
    UnitsAreFirsts(env, value, observations, fields, Units(env, value), Gathered([], []));
    TextsOfSpeaking(Firsts([], met));
    SpeakingFirsts([], met);
    SpeakingMet(env, value, observations, fields, Units(env, value));
  }

  // --------------------------------------------------------- the units, in order of speech

  /** The units that have text, each where it comes first. */
  function Speakers(env: Env, value: KnowledgeValue, observations: seq<Observation>, fields: seq<Field>, units: seq<Unit>): seq<Unit>
  {
    Firsts([], Audible(env, value, observations, fields, units))
  }

  function Audible(env: Env, value: KnowledgeValue, observations: seq<Observation>, fields: seq<Field>, units: seq<Unit>): (r: seq<Unit>)
    ensures forall u :: u in r <==> u in units && Voice(env, value, observations, fields, u) != []
  {
    if units == [] then []
    else (if Voice(env, value, observations, fields, units[0]) != [] then [units[0]] else []) +
         Audible(env, value, observations, fields, units[1..])
  }

  lemma {:induction false} VoicesConcat(env: Env, value: KnowledgeValue, observations: seq<Observation>, fields: seq<Field>,
                                       s: seq<Unit>, t: seq<Unit>)
    ensures Voices(env, value, observations, fields, s + t) ==
      Voices(env, value, observations, fields, s) + Voices(env, value, observations, fields, t)
  {
    if s == [] {
      assert s + t == t;
    } else {
      assert (s + t)[1..] == s[1..] + t;
      VoicesConcat(env, value, observations, fields, s[1..], t);
    }
  }

  lemma {:induction false} VoiceWithin(env: Env, value: KnowledgeValue, observations: seq<Observation>, fields: seq<Field>,
                                      units: seq<Unit>, u: Unit)
    requires u in units
    ensures forall c :: c in Voice(env, value, observations, fields, u) ==> c in Voices(env, value, observations, fields, units)
  {
    if u != units[0] {
      VoiceWithin(env, value, observations, fields, units[1..], u);
    }
  }

  /** Only the speakers matter, and only where they come first. */
  lemma {:induction false} SpeakersSuffice(env: Env, value: KnowledgeValue, observations: seq<Observation>, fields: seq<Field>,
                                          before: seq<Unit>, units: seq<Unit>)
    ensures Firsts(Firsts([], Voices(env, value, observations, fields, before)), Voices(env, value, observations, fields, units)) ==
      Firsts([], Voices(env, value, observations, fields, Firsts(before, Audible(env, value, observations, fields, units))))
    decreases units
  {
    if units != [] {
      var u, rest := units[0], units[1..];
      var acc, voice := Firsts([], Voices(env, value, observations, fields, before)), Voice(env, value, observations, fields, u);
      FirstsConcat(acc, voice, Voices(env, value, observations, fields, rest));
      if voice == [] {
        SpeakersSuffice(env, value, observations, fields, before, rest);
        assert Audible(env, value, observations, fields, units) == Audible(env, value, observations, fields, rest);
      } else {
        FirstsConcat(before, [u], Audible(env, value, observations, fields, rest));
        assert [u][1..] == [];
        if u in before {
          VoiceWithin(env, value, observations, fields, before, u);
          FirstsMembers([], Voices(env, value, observations, fields, before));
          NothingNew(acc, voice);
          SpeakersSuffice(env, value, observations, fields, before, rest);
        } else {
          VoicesConcat(env, value, observations, fields, before, [u]);
          assert Voices(env, value, observations, fields, [u]) == voice;
          FirstsConcat([], Voices(env, value, observations, fields, before), voice);
          SpeakersSuffice(env, value, observations, fields, before + [u], rest);
        }
      }
    }
  }

  /** The same object with its units declared in another order. */
  ghost predicate Rearranged(v: KnowledgeValue, w: KnowledgeValue)
  {
    v.declarations != [] && w == v.(declarations := w.declarations) && SameMembers(v.declarations, w.declarations)
  }

  lemma {:induction false} VoicesAgree(env: Env, v: KnowledgeValue, w: KnowledgeValue, observations: seq<Observation>, fields: seq<Field>,
                                      units: seq<Unit>)
    requires w == v.(declarations := w.declarations)
    ensures Voices(env, v, observations, fields, units) == Voices(env, w, observations, fields, units)
    ensures Audible(env, v, observations, fields, units) == Audible(env, w, observations, fields, units)
  {
    if units != [] {
      assert Presented(v, observations, units[0]) == Presented(w, observations, units[0]);
      VoicesAgree(env, v, w, observations, fields, units[1..]);
    }
  }

  /** Rearranging the units leaves the document alone if those with text keep their order. */
  lemma SameSpeakersSameDocument(env: Env, v: KnowledgeValue, w: KnowledgeValue, observations: seq<Observation>, fields: seq<Field>)
    requires WellFormed(fields) && Rearranged(v, w)
    requires Speakers(env, v, observations, fields, v.declarations) == Speakers(env, v, observations, fields, w.declarations)
    ensures Document(env, v, observations, fields).Success? <==> Document(env, w, observations, fields).Success?
    ensures Document(env, v, observations, fields).Success? ==> Document(env, v, observations, fields) == Document(env, w, observations, fields)
  {
    UnitOrderIsIrrelevant(env, fields, v, w.declarations, observations);
    if Document(env, v, observations, fields).Success? {
      TextMeans(env, v, observations, fields);
      TextMeans(env, w, observations, fields);
      SpeakersSuffice(env, v, observations, fields, [], v.declarations);
      SpeakersSuffice(env, v, observations, fields, [], w.declarations);
      VoicesAgree(env, v, w, observations, fields, w.declarations);
      assert w.declarations != [] by { assert v.declarations[0] in w.declarations; }
    }
  }

  /** In particular if no more than one unit has text. */
  lemma OneSpeakerSameDocument(env: Env, v: KnowledgeValue, w: KnowledgeValue, observations: seq<Observation>, fields: seq<Field>)
    requires WellFormed(fields) && Rearranged(v, w)
    requires AllEqual(Audible(env, v, observations, fields, v.declarations))
    ensures Document(env, v, observations, fields).Success? ==> Document(env, v, observations, fields) == Document(env, w, observations, fields)
  {
    OnlyOne(Audible(env, v, observations, fields, v.declarations), Audible(env, v, observations, fields, w.declarations));
    SameSpeakersSameDocument(env, v, w, observations, fields);
  }

  ghost predicate AllEqual<T(!new)>(s: seq<T>)
  {
    forall x, y :: x in s && y in s ==> x == y
  }

  lemma OnlyOne<T(!new)>(s: seq<T>, t: seq<T>)
    requires AllEqual(s) && SameMembers(s, t)
    ensures Firsts([], s) == Firsts([], t)
  {
    FirstOfEqual(s);
    FirstOfEqual(t);
    if s != [] { assert s[0] in s && s[0] in t; }
    if t != [] { assert t[0] in t && t[0] in s; }
  }

  lemma FirstOfEqual<T(!new)>(s: seq<T>)
    requires AllEqual(s)
    ensures Firsts([], s) == if s == [] then [] else [s[0]]
  {
    if s != [] {
      forall x | x in s[1..] ensures x in [s[0]] { assert x in s && s[0] in s; }
      NothingNew([s[0]], s[1..]);
      assert [] + [s[0]] == [s[0]];
    }
  }

  // ------------------------------------------------------------------------ and only then

  /** What one unit adds to the text, as parts. */
  function Block(env: Env, value: KnowledgeValue, observations: seq<Observation>, fields: seq<Field>, u: Unit): seq<string>
  {
    Texts(Firsts([], Voice(env, value, observations, fields, u)))
  }

  function Blocks(env: Env, value: KnowledgeValue, observations: seq<Observation>, fields: seq<Field>, units: seq<Unit>): seq<string>
  {
    if units == [] then []
    else Block(env, value, observations, fields, units[0]) + Blocks(env, value, observations, fields, units[1..])
  }

  ghost predicate Shares(env: Env, value: KnowledgeValue, observations: seq<Observation>, fields: seq<Field>, a: Unit, b: Unit)
  {
    exists c, d :: c in Voice(env, value, observations, fields, a) && d in Voice(env, value, observations, fields, b) && c.text == d.text
  }

  /** Different units have different texts, and no text holds the blank that joins them. */
  ghost predicate Distinguishable(env: Env, value: KnowledgeValue, observations: seq<Observation>, fields: seq<Field>, units: seq<Unit>)
  {
    && (forall a, b :: a in units && b in units && a != b ==> !Shares(env, value, observations, fields, a, b))
    && (forall u, c :: u in units && c in Voice(env, value, observations, fields, u) ==> ' ' !in c.text)
  }

  lemma {:induction false} TextsMembers(cells: seq<Cell>)
    ensures forall t :: t in Texts(cells) <==> exists c :: c in cells && c.text == t && t != ""
  {
    if cells != [] {
      assert cells == [cells[0]] + cells[1..];
      TextsMembers(cells[1..]);
    }
  }

  lemma BlockMembers(env: Env, value: KnowledgeValue, observations: seq<Observation>, fields: seq<Field>, u: Unit)
    ensures forall t :: t in Block(env, value, observations, fields, u) <==>
      exists c :: c in Voice(env, value, observations, fields, u) && c.text == t
    ensures "" !in Block(env, value, observations, fields, u)
    ensures Block(env, value, observations, fields, u) == [] <==> Voice(env, value, observations, fields, u) == []
  {
    var voice := Voice(env, value, observations, fields, u);
    FirstsMembers([], voice);
    TextsMembers(Firsts([], voice));
    if voice != [] {
      assert voice[0] in voice && voice[0].text in Block(env, value, observations, fields, u);
    }
  }

  /** Of different units with different texts, the text is block by block. */
  lemma {:induction false} TextsAreBlocks(env: Env, value: KnowledgeValue, observations: seq<Observation>, fields: seq<Field>,
                                         all: seq<Unit>, acc: seq<Cell>, units: seq<Unit>)
    requires Distinguishable(env, value, observations, fields, all) && Voiced(env, value, observations, fields, all, units)
    requires NoRepeats(units) && Unheard(env, value, observations, fields, acc, units)
    ensures Texts(Firsts(acc, Voices(env, value, observations, fields, units))) ==
      Texts(acc) + Blocks(env, value, observations, fields, units)
    decreases units
  {
    if units != [] {
      var own := Firsts([], Voice(env, value, observations, fields, units[0]));
      BlocksBegin(env, value, observations, fields, all, units);
      StillUnheard(env, value, observations, fields, all, acc, units);
      TextsAreBlocks(env, value, observations, fields, all, acc + own, units[1..]);
      BlockJoins(env, value, observations, fields, acc, units);
    }
  }

  lemma BlockJoins(env: Env, value: KnowledgeValue, observations: seq<Observation>, fields: seq<Field>, acc: seq<Cell>, units: seq<Unit>)
    requires units != [] && Unheard(env, value, observations, fields, acc, units)
    requires var own := Firsts([], Voice(env, value, observations, fields, units[0]));
      Texts(Firsts(acc + own, Voices(env, value, observations, fields, units[1..]))) ==
      Texts(acc + own) + Blocks(env, value, observations, fields, units[1..])
    ensures Texts(Firsts(acc, Voices(env, value, observations, fields, units))) ==
      Texts(acc) + Blocks(env, value, observations, fields, units)
  {
    SpeaksAnew(env, value, observations, fields, acc, units);
    TextsConcat(acc, Firsts([], Voice(env, value, observations, fields, units[0])));
    Regroup(Texts(acc), Block(env, value, observations, fields, units[0]), Blocks(env, value, observations, fields, units[1..]));
  }

  lemma Regroup<T>(a: seq<T>, b: seq<T>, c: seq<T>)
    ensures (a + b) + c == a + (b + c)
  {}

  lemma SpeaksAnew(env: Env, value: KnowledgeValue, observations: seq<Observation>, fields: seq<Field>, acc: seq<Cell>, units: seq<Unit>)
    requires units != [] && Unheard(env, value, observations, fields, acc, units)
    ensures Firsts(acc, Voices(env, value, observations, fields, units)) ==
      Firsts(acc + Firsts([], Voice(env, value, observations, fields, units[0])), Voices(env, value, observations, fields, units[1..]))
  {
    var voice := Voice(env, value, observations, fields, units[0]);
    FirstsConcat(acc, voice, Voices(env, value, observations, fields, units[1..]));
    assert units[0] in units;
    AllNew(acc, [], voice);
    assert acc + [] == acc;
  }

  predicate NoRepeats(units: seq<Unit>)
  {
    forall i, j :: 0 <= i < j < |units| ==> units[i] != units[j]
  }

  /** None of the cells is what one of the units says. */
  ghost predicate Unheard(env: Env, value: KnowledgeValue, observations: seq<Observation>, fields: seq<Field>, acc: seq<Cell>, units: seq<Unit>)
  {
    forall u, c :: u in units && c in Voice(env, value, observations, fields, u) ==> c !in acc
  }

  lemma StillUnheard(env: Env, value: KnowledgeValue, observations: seq<Observation>, fields: seq<Field>,
                     all: seq<Unit>, acc: seq<Cell>, units: seq<Unit>)
    requires units != [] && Distinguishable(env, value, observations, fields, all) && Voiced(env, value, observations, fields, all, units)
    requires NoRepeats(units) && Unheard(env, value, observations, fields, acc, units)
    ensures NoRepeats(units[1..])
    ensures Unheard(env, value, observations, fields, acc + Firsts([], Voice(env, value, observations, fields, units[0])), units[1..])
  {
    var u, voice := units[0], Voice(env, value, observations, fields, units[0]);
    FirstsMembers([], voice);
    forall x, c | x in units[1..] && c in Voice(env, value, observations, fields, x) ensures c !in acc + Firsts([], voice) {
      var i :| 0 <= i < |units[1..]| && units[1..][i] == x;
      assert units[0] != units[i + 1] && x in units && u in units;
      assert c in voice ==> Shares(env, value, observations, fields, u, x);
    }
  }

  lemma SameHead(env: Env, value: KnowledgeValue, observations: seq<Observation>, fields: seq<Field>, all: seq<Unit>, a: Unit, b: Unit, part: string)
    requires Distinguishable(env, value, observations, fields, all) && a in all && b in all
    requires part in Block(env, value, observations, fields, a) && part in Block(env, value, observations, fields, b)
    ensures a == b
  {
    BlockMembers(env, value, observations, fields, a);
    BlockMembers(env, value, observations, fields, b);
    assert a != b ==> Shares(env, value, observations, fields, a, b);
  }

  lemma Strip(a: seq<string>, b: seq<string>, c: seq<string>)
    requires a + b == a + c
    ensures b == c
  {
    assert b == (a + b)[|a|..] && c == (a + c)[|a|..];
  }

  /** Some of the units, all with text. */
  predicate Voiced(env: Env, value: KnowledgeValue, observations: seq<Observation>, fields: seq<Field>, all: seq<Unit>, units: seq<Unit>)
  {
    forall u :: u in units ==> u in all && Voice(env, value, observations, fields, u) != []
  }

  lemma BlocksBegin(env: Env, value: KnowledgeValue, observations: seq<Observation>, fields: seq<Field>, all: seq<Unit>, units: seq<Unit>)
    requires Voiced(env, value, observations, fields, all, units)
    ensures units != [] ==> units[0] in all && Voiced(env, value, observations, fields, all, units[1..])
    ensures Blocks(env, value, observations, fields, units) == [] <==> units == []
    ensures units != [] ==> Blocks(env, value, observations, fields, units)[0] in Block(env, value, observations, fields, units[0])
  {
    if units != [] {
      assert units[0] in units;
      BlockMembers(env, value, observations, fields, units[0]);
    }
  }

  /** The blocks tell the units and their order. */
  lemma {:induction false} BlocksDetermine(env: Env, value: KnowledgeValue, observations: seq<Observation>, fields: seq<Field>,
                                          all: seq<Unit>, s: seq<Unit>, t: seq<Unit>)
    requires Distinguishable(env, value, observations, fields, all)
    requires Voiced(env, value, observations, fields, all, s) && Voiced(env, value, observations, fields, all, t)
    requires Blocks(env, value, observations, fields, s) == Blocks(env, value, observations, fields, t)
    ensures s == t
  {
    BlocksBegin(env, value, observations, fields, all, s);
    BlocksBegin(env, value, observations, fields, all, t);
    if s != [] && t != [] {
      SameHead(env, value, observations, fields, all, s[0], t[0], Blocks(env, value, observations, fields, s)[0]);
      Strip(Block(env, value, observations, fields, s[0]), Blocks(env, value, observations, fields, s[1..]),
            Blocks(env, value, observations, fields, t[1..]));
      BlocksDetermine(env, value, observations, fields, all, s[1..], t[1..]);
      assert s == [s[0]] + s[1..] && t == [t[0]] + t[1..];
    }
  }

  predicate Plain(parts: seq<string>)
  {
    forall part :: part in parts ==> part != "" && ' ' !in part
  }

  lemma BlankInside(p: seq<string>)
    ensures |p| > 1 ==> ' ' in Join(p)
  {
    if |p| > 1 {
      assert Join(p)[|p[0]|] == ' ';
    }
  }

  /** Parts without blanks are told from their joined text. */
  lemma {:induction false} JoinDetermines(p: seq<string>, q: seq<string>)
    requires Plain(p) && Plain(q) && Join(p) == Join(q)
    ensures p == q
  {
    assert p != [] ==> p[0] in p;
    assert q != [] ==> q[0] in q;
    BlankInside(p);
    BlankInside(q);
    if p != [] && q != [] {
      assert p == [p[0]] + p[1..] && q == [q[0]] + q[1..];
      if |p| > 1 && |q| > 1 {
        assert Join(p) == p[0] + [' '] + Join(p[1..]) && Join(q) == q[0] + [' '] + Join(q[1..]);
        Text.SplitUnique(' ', p[0], q[0], Join(p[1..]), Join(q[1..]));
        assert Plain(p[1..]) by { forall part | part in p[1..] ensures part in p {} }
        assert Plain(q[1..]) by { forall part | part in q[1..] ensures part in q {} }
        JoinDetermines(p[1..], q[1..]);
      }
    }
  }

  lemma {:induction false} BlocksPlain(env: Env, value: KnowledgeValue, observations: seq<Observation>, fields: seq<Field>,
                                      all: seq<Unit>, units: seq<Unit>)
    requires Distinguishable(env, value, observations, fields, all) && forall u :: u in units ==> u in all
    ensures Plain(Blocks(env, value, observations, fields, units))
  {
    if units != [] {
      assert units[0] in units;
      BlockMembers(env, value, observations, fields, units[0]);
      BlocksPlain(env, value, observations, fields, all, units[1..]);
    }
  }

  lemma {:induction false} FirstsDistinct<T>(acc: seq<T>, s: seq<T>)
    requires forall i, j :: 0 <= i < j < |acc| ==> acc[i] != acc[j]
    ensures forall i, j :: 0 <= i < j < |Firsts(acc, s)| ==> Firsts(acc, s)[i] != Firsts(acc, s)[j]
    decreases s
  {
    if s != [] {
      FirstsDistinct(if s[0] in acc then acc else acc + [s[0]], s[1..]);
    }
  }

  lemma TextIsBlocks(env: Env, v: KnowledgeValue, observations: seq<Observation>, fields: seq<Field>, units: seq<Unit>)
    requires Distinguishable(env, v, observations, fields, units)
    ensures Texts(Firsts([], Voices(env, v, observations, fields, units))) ==
      Blocks(env, v, observations, fields, Speakers(env, v, observations, fields, units))
  {
    SpeakersSuffice(env, v, observations, fields, [], units);
    SpeakersAreVoiced(env, v, observations, fields, units);
    TextsAreBlocks(env, v, observations, fields, units, [], Speakers(env, v, observations, fields, units));
  }

  lemma SpeakersAreVoiced(env: Env, v: KnowledgeValue, observations: seq<Observation>, fields: seq<Field>, units: seq<Unit>)
    ensures Voiced(env, v, observations, fields, units, Speakers(env, v, observations, fields, units))
    ensures NoRepeats(Speakers(env, v, observations, fields, units))
  {
    FirstsMembers([], Audible(env, v, observations, fields, units));
    FirstsDistinct([], Audible(env, v, observations, fields, units));
  }

  /** When different units have different texts, rearranging them keeps the document exactly if
  those with text keep their order. */
  lemma RearrangedIsSameIff(env: Env, v: KnowledgeValue, w: KnowledgeValue, observations: seq<Observation>, fields: seq<Field>)
    requires WellFormed(fields) && Rearranged(v, w) && Distinguishable(env, v, observations, fields, v.declarations)
    requires Document(env, v, observations, fields).Success?
    ensures Document(env, v, observations, fields) == Document(env, w, observations, fields) <==>
      Speakers(env, v, observations, fields, v.declarations) == Speakers(env, v, observations, fields, w.declarations)
  {
    var s, t := Speakers(env, v, observations, fields, v.declarations), Speakers(env, v, observations, fields, w.declarations);
    if s == t {
      SameSpeakersSameDocument(env, v, w, observations, fields);
    }
    if Document(env, v, observations, fields) == Document(env, w, observations, fields) {
      assert w.declarations != [] by { assert v.declarations[0] in w.declarations; }
      TextMeans(env, v, observations, fields);
      TextMeans(env, w, observations, fields);
      VoicesAgree(env, v, w, observations, fields, w.declarations);
      TextIsBlocks(env, v, observations, fields, v.declarations);
      TextIsBlocks(env, v, observations, fields, w.declarations);
      SpeakersAreVoiced(env, v, observations, fields, v.declarations);
      SpeakersAreVoiced(env, v, observations, fields, w.declarations);
      BlocksPlain(env, v, observations, fields, v.declarations, s);
      BlocksPlain(env, v, observations, fields, v.declarations, t);
      JoinDetermines(Blocks(env, v, observations, fields, s), Blocks(env, v, observations, fields, t));
      BlocksDetermine(env, v, observations, fields, v.declarations, s, t);
    }
  }

  // -------------------------------------------------------------------------- an example

  /** The document of two units that each give one scalar to one text field. */
  lemma TwoUnits(env: Env, v: KnowledgeValue, p: Unit, q: Unit, f: Field, a: Json, b: Json, m: string, n: string)
    requires v.declarations == [p, q] && Kind(v) == Entity
    requires f.path == "" && f.text && Applies(env, p, f) && Applies(env, q, f)
    requires Presented(v, [], p) == Success(Some(a)) && Presented(v, [], q) == Success(Some(b))
    requires a != Null && !a.List? && b != Null && !b.List?
    requires env.normalize(f.kind, a) == Some(m) && env.normalize(f.kind, b) == Some(n) && m != "" && n != "" && m != n
    ensures Document(env, v, [], [f]).Success? && Document(env, v, [], [f]).value.text == Join([m, n])
  {
    var c, d := CellFor(f, m), CellFor(f, n);
    var key := FieldKey(f);
    assert Identity(c)[|key| + 1..] == m && Identity(d)[|key| + 1..] == n;
    var g0, g1, g2 := Gathered([], []), Gathered([key], [c]), Gathered([key], [c, d]);
    assert WithCell(WithField(g0, key), c) == g1;
    assert WithCell(WithField(g1, key), d) == g2;
    assert Items(a, f) == [a] && Items(b, f) == [b];
    assert AddItems(env, f, [a], WithField(g0, key)) == Success(g1);
    assert AddItems(env, f, [b], WithField(g1, key)) == Success(g2);
    assert AddFields(env, p, a, [f], g0) == Success(g1);
    assert AddFields(env, q, b, [f], g1) == Success(g2);
    assert [p, q][1..] == [q];
    assert AddUnits(env, v, [], [f], [q], g1) == Success(g2);
    assert AddUnits(env, v, [], [f], [p, q], g0) == Success(g2);
    assert [c, d][1..] == [d] && [d][1..] == [];
    assert Texts([d]) == [n];
    assert Texts([c, d]) == [m] + [n];
  }

  /** Strings normalise to themselves; nothing else parses. */
  function StringsOnly(): Env
  {
    Env((kind, item: Json) => if item.Text? then Some(item.text) else None,
        (id, body) => Failure(UsageInvalid), ref => None, (a, c) => None)
  }

  function MemberUnit(key: string): Unit
  {
    Unit(Address(Member, "o", "a", key), NoDigest, "", None)
  }

  /** One object with an aspect `a` of two members, "x" and "y". */
  function TwoMembers(declarations: seq<Unit>): KnowledgeValue
  {
    var body := Object(map["a" := Object(map["1" := Json.Text("x"), "2" := Json.Text("y")])]);
    KnowledgeValue("", "", Address(Entity, "o", "", ""), body, [], declarations)
  }

  /** A text field over the whole unit of aspect `a`. */
  function WholeUnit(): Field
  {
    Field("", "a", "", "", true, false)
  }

  lemma TwoMembersText(p: string, q: string, m: string, n: string)
    requires (p, m) != (q, n) && {(p, m), (q, n)} == {("1", "x"), ("2", "y")}
    ensures Document(StringsOnly(), TwoMembers([MemberUnit(p), MemberUnit(q)]), [], [WholeUnit()]).Success?
    ensures Document(StringsOnly(), TwoMembers([MemberUnit(p), MemberUnit(q)]), [], [WholeUnit()]).value.text == m + " " + n
  {
    assert (p, m) in {("1", "x"), ("2", "y")} && (q, n) in {("1", "x"), ("2", "y")};
    var v := TwoMembers([MemberUnit(p), MemberUnit(q)]);
    assert Presented(v, [], MemberUnit(p)) == Success(Some(Json.Text(m)));
    assert Presented(v, [], MemberUnit(q)) == Success(Some(Json.Text(n)));
    TwoUnits(StringsOnly(), v, MemberUnit(p), MemberUnit(q), WholeUnit(), Json.Text(m), Json.Text(n), m, n);
    assert [m, n][1..] == [n];
  }

  lemma WholeUnitWellFormed()
    ensures WellFormed([WholeUnit()])
  {
    assert FieldKey(WholeUnit()) == [SEPARATOR, 'a', SEPARATOR];
  }

  /** The text, and with it the object digest, does follow the order of the units. */
  lemma TextFollowsUnitOrder()
    ensures
      var one, two := MemberUnit("1"), MemberUnit("2");
      var a := Document(StringsOnly(), TwoMembers([one, two]), [], [WholeUnit()]);
      var b := Document(StringsOnly(), TwoMembers([two, one]), [], [WholeUnit()]);
      && WellFormed([WholeUnit()]) && SameMembers([one, two], [two, one])
      && a.Success? && b.Success? && a.value.text != b.value.text
  {
    TwoMembersText("1", "2", "x", "y");
    TwoMembersText("2", "1", "y", "x");
    assert ("x" + " " + "y")[0] == 'x' && ("y" + " " + "x")[0] == 'y';
    WholeUnitWellFormed();
  }
}
