/**
 * The storefront's filter panel: the filter state shared through the filters
 * context, the checkbox and radio handlers that update it, and which control
 * is shown checked.
 */
module FilterPanel {
  import Seqs

  /** An option value: the panel mixes strings (features, classes, sort fields) and numbers (capacities). */
  datatype Val = S(s: string) | N(n: real)

  /** The keys of the filter state. */
  datatype Section = Sort | Feature | EnergyClass | Capacity

  /** The value under one key: the selected sort field, or the list of ticked options. */
  datatype Field = Scalar(v: Val) | List(items: seq<Val>)

  /** The filter state: one field per section. */
  type Filters = map<Section, Field>

  /** The state the context starts in: no sort, nothing ticked. */
  const Initial: Filters :=
    map[Sort := Scalar(S("")), Capacity := List([]), EnergyClass := List([]), Feature := List([])]

  /** The shape the context declares: `sort` holds one value, the other three hold lists. */
  predicate WellShaped(f: Filters) {
    && f.Keys == {Sort, Feature, EnergyClass, Capacity}
    && f[Sort].Scalar?
    && f[Feature].List? && f[EnergyClass].List? && f[Capacity].List?
  }

  /** Only the `sort` section is drawn as radio buttons; the others are checkboxes. */
  predicate UsesRadio(sec: Section) {
    sec == Sort
  }

  /**
   * The list update of `handleCheckboxChange`: a value already present is
   * removed everywhere it occurs (`filter(v => v !== value)`), a value not
   * present is appended at the end.
   */
  function ToggleList(xs: seq<Val>, v: Val): (r: seq<Val>)
    ensures v in r <==> v !in xs
    ensures forall x :: x != v ==> (x in r <==> x in xs)
    ensures v !in xs ==> r == xs + [v]
  {
    if v in xs then Seqs.Filter(x => x != v, xs) else xs + [v]
  }

  /** Removing a value keeps every other element in its original relative order. */
  lemma ToggleKeepsOrder(a: seq<Val>, b: seq<Val>, v: Val)
    requires v in a + b
    ensures ToggleList(a + b, v) == Seqs.Filter(x => x != v, a) + Seqs.Filter(x => x != v, b)
  {
    Seqs.FilterAppend(x => x != v, a, b);
  }

  /**
   * `handleCheckboxChange(sectionId, value)`: toggles `value` in that
   * section's list and leaves every other section as it was.
   */
  function ToggleCheckbox(f: Filters, sec: Section, v: Val): (r: Filters)
    requires sec in f && f[sec].List?
    ensures r.Keys == f.Keys
    ensures r[sec] == List(ToggleList(f[sec].items, v))
    ensures forall k :: k in f && k != sec ==> r[k] == f[k]
  {
    f[sec := List(ToggleList(f[sec].items, v))]
  }

  /**
   * `handleRadioChange(sectionId, value)`: the section holds exactly `value`
   * afterwards and every other section is unchanged.
   */
  function SetRadio(f: Filters, sec: Section, v: Val): (r: Filters)
    ensures r.Keys == f.Keys + {sec}
    ensures r[sec] == Scalar(v)
    ensures forall k :: k in f && k != sec ==> r[k] == f[k]
  {
    f[sec := Scalar(v)]
  }

  /** Both handlers keep the declared shape when used on the sections that render them. */
  lemma HandlersKeepShape(f: Filters, sec: Section, v: Val)
    requires WellShaped(f)
    ensures !UsesRadio(sec) ==> WellShaped(ToggleCheckbox(f, sec, v))
    ensures UsesRadio(sec) ==> WellShaped(SetRadio(f, sec, v))
  {
  }

  /** Choosing the same radio value twice is the same as choosing it once. */
  lemma RadioIdempotent(f: Filters, sec: Section, v: Val)
    ensures SetRadio(SetRadio(f, sec, v), sec, v) == SetRadio(f, sec, v)
  {
  }

  /** Ticking a box that was clear and then clearing it restores the state exactly. */
  lemma ToggleTwice(f: Filters, sec: Section, v: Val)
    requires sec in f && f[sec].List? && v !in f[sec].items
    ensures ToggleCheckbox(ToggleCheckbox(f, sec, v), sec, v) == f
  {
    var xs := f[sec].items;
    var once := xs + [v];
    Seqs.FilterAppend(x => x != v, xs, [v]);
    Seqs.FilterKeepsAll(x => x != v, xs);
    assert Seqs.Filter(x => x != v, [v]) == [];
    assert ToggleList(once, v) == xs;
  }

  /**
   * Whether the control for option `v` of section `sec` is drawn checked: a
   * radio when the section holds exactly `v`, a checkbox when `v` is in the
   * section's list.
   */
  function Checked(f: Filters, sec: Section, v: Val): (c: bool)
    requires sec in f
    requires UsesRadio(sec) ==> f[sec].Scalar?
    requires !UsesRadio(sec) ==> f[sec].List?
    ensures UsesRadio(sec) ==> (c <==> f[sec] == Scalar(v))
    ensures !UsesRadio(sec) ==> (c <==> v in f[sec].items)
  {
    if UsesRadio(sec) then f[sec].v == v else v in f[sec].items
  }

  /** The `onChange` of the control for option `v`: the radio handler for `sort`, the checkbox handler otherwise. */
  function Click(f: Filters, sec: Section, v: Val): (r: Filters)
    requires WellShaped(f)
    ensures WellShaped(r)
  {
    if UsesRadio(sec) then SetRadio(f, sec, v) else ToggleCheckbox(f, sec, v)
  }

  /**
   * Clicking a control selects a radio, and flips a checkbox; no control of
   * another section changes its checked state.
   */
  lemma ClickEffect(f: Filters, sec: Section, v: Val, other: Section, w: Val)
    requires WellShaped(f)
    ensures UsesRadio(sec) ==> Checked(Click(f, sec, v), sec, v)
    ensures !UsesRadio(sec) ==> (Checked(Click(f, sec, v), sec, v) <==> !Checked(f, sec, v))
    ensures other != sec ==> Checked(Click(f, sec, v), other, w) == Checked(f, other, w)
  {
  }

  /** Selecting a sort value unchecks every other sort option. */
  lemma RadioExclusive(f: Filters, v: Val, w: Val)
    requires WellShaped(f)
    ensures Checked(Click(f, Sort, v), Sort, w) <==> w == v
  {
  }

  /** The panel starts well shaped, with no box ticked and no offered sort option selected. */
  lemma InitialUnchecked(sec: Section, v: Val)
    ensures WellShaped(Initial)
    ensures Checked(Initial, sec, v) <==> sec == Sort && v == S("")
  {
  }

  /** The options the panel offers, section by section (`caption` is the option's label). */
  datatype FilterOption = FilterOption(value: Val, caption: string)
  datatype SectionData = SectionData(id: Section, name: string, options: seq<FilterOption>)

  const Sections: seq<SectionData> := [
    SectionData(Sort, "Sortuj", [FilterOption(S("price"), "Cena"), FilterOption(S("capacity"), "Pojemność")]),
    SectionData(Feature, "Funkcje", [
      FilterOption(S("Panel AI Control"), "Panel AI Control"),
      FilterOption(S("Silnik inwerterowy"), "Silnik inwerterowy"),
      FilterOption(S("Wyświetlacz elektroniczny"), "Wyświetlacz elektroniczny")]),
    SectionData(EnergyClass, "Klasa energetyczna", [FilterOption(S("A"), "A"), FilterOption(S("B"), "B"), FilterOption(S("C"), "C")]),
    SectionData(Capacity, "Pojemność", [FilterOption(N(8.0), "8 kg"), FilterOption(N(9.0), "9 kg"), FilterOption(N(10.5), "10.5 kg")])
  ]

  /** Each section appears once, so each control belongs to exactly one key of the state. */
  lemma SectionsDistinct()
    ensures forall i, j :: 0 <= i < j < |Sections| ==> Sections[i].id != Sections[j].id
    ensures (set i | 0 <= i < |Sections| :: Sections[i].id) == {Sort, Feature, EnergyClass, Capacity}
  {
    assert Sections[0].id == Sort && Sections[1].id == Feature;
    assert Sections[2].id == EnergyClass && Sections[3].id == Capacity;
  }
}
