/**
 * `get_airport_choices` of `utils.py`: the (code, label) pairs offered in the
 * airport pickers, kept only for airports whose code and name are truthy and
 * ordered by label with Python's stable `sorted`.
 */
module AirportChoices {
  import opened Common

  /** An entry of the airport list; `None` is a missing key or a null value. */
  datatype AirportRecord = AirportRecord(iataCode: Option<string>, name: Option<string>)

  /** The tuple `(code, label)`. */
  datatype Choice = Choice(code: string, display: string)

  /** Truthiness of an optional string: present and not empty. */
  predicate Truthy(v: Option<string>) {
    v.Some? && v.value != []
  }

  predicate Eligible(a: AirportRecord) {
    Truthy(a.iataCode) && Truthy(a.name)
  }

  function ChoiceOf(a: AirportRecord): (c: Choice)
    requires Eligible(a)
    ensures c.code == a.iataCode.value
    ensures c.display == a.name.value + " (" + a.iataCode.value + ")"
  {
    Choice(a.iataCode.value, a.name.value + " (" + a.iataCode.value + ")")
  }

  /** The choices of the eligible airports, in list order. */
  function Candidates(airports: seq<AirportRecord>): (r: seq<Choice>)
    ensures |r| <= |airports|
  {
    if airports == [] then []
    else
      var a := airports[|airports| - 1];
      if Eligible(a) then Candidates(airports[..|airports| - 1]) + [ChoiceOf(a)]
      else Candidates(airports[..|airports| - 1])
  }

  /** A choice is offered exactly for each eligible airport. */
  lemma {:induction false} CandidatesExactly(airports: seq<AirportRecord>, c: Choice)
    ensures c in Candidates(airports) <==> exists i :: 0 <= i < |airports| && Eligible(airports[i]) && c == ChoiceOf(airports[i])
  {
    if airports != [] {
      var init := airports[..|airports| - 1];
      CandidatesExactly(init, c);
      assert forall i :: 0 <= i < |init| ==> init[i] == airports[i];
      if c in Candidates(airports) && c !in Candidates(init) {
        assert c == ChoiceOf(airports[|airports| - 1]);
      }
    }
  }

  // ---------------------------------------------------------------------------
  // Python string order
  // ---------------------------------------------------------------------------

  /** `a <= b` on Python strings: lexicographic by code point. */
  predicate LexLe(a: string, b: string)
    decreases |a|
  {
    a == [] || (b != [] && (a[0] < b[0] || (a[0] == b[0] && LexLe(a[1..], b[1..]))))
  }

  lemma {:induction false} LexLeTotal(a: string, b: string)
    ensures LexLe(a, b) || LexLe(b, a)
    decreases |a|
  {
    if a != [] && b != [] && a[0] == b[0] {
      LexLeTotal(a[1..], b[1..]);
    }
  }

  lemma {:induction false} LexLeTransitive(a: string, b: string, c: string)
    requires LexLe(a, b) && LexLe(b, c)
    ensures LexLe(a, c)
    decreases |a|
  {
    if a != [] && a[0] == b[0] && b[0] == c[0] {
      LexLeTransitive(a[1..], b[1..], c[1..]);
    }
  }

  // ---------------------------------------------------------------------------
  // sorted(airport_choices, key=lambda x: x[1])
  // ---------------------------------------------------------------------------

  predicate SortedByLabel(s: seq<Choice>) {
    forall i, j :: 0 <= i < j < |s| ==> LexLe(s[i].display, s[j].display)
  }

  function HasLabel(l: string): Choice -> bool {
    (c: Choice) => c.display == l
  }

  /** `x` placed after every element whose label is not greater than its own. */
  function Insert(x: Choice, s: seq<Choice>): (r: seq<Choice>)
    ensures |r| == |s| + 1
    ensures forall c :: c in r <==> c == x || c in s
  {
    if s == [] || LexLe(s[|s| - 1].display, x.display) then s + [x]
    else
      assert s == s[..|s| - 1] + [s[|s| - 1]];
      Insert(x, s[..|s| - 1]) + [s[|s| - 1]]
  }

  lemma {:induction false} InsertSorted(x: Choice, s: seq<Choice>)
    requires SortedByLabel(s)
    ensures SortedByLabel(Insert(x, s)) && multiset(Insert(x, s)) == multiset(s) + multiset{x}
  {
    if s != [] {
      var init := s[..|s| - 1];
      var last := s[|s| - 1];
      assert s == init + [last];
      if LexLe(last.display, x.display) {
        forall i | 0 <= i < |s| ensures LexLe(s[i].display, x.display) {
          if i < |s| - 1 {
            LexLeTransitive(s[i].display, last.display, x.display);
          }
        }
      } else {
        InsertSorted(x, init);
        LexLeTotal(last.display, x.display);
        var t := Insert(x, init);
        forall k | 0 <= k < |t| ensures LexLe(t[k].display, last.display) {
          assert t[k] in multiset(init) + multiset{x};
          if t[k] != x {
            var i :| 0 <= i < |init| && init[i] == t[k];
          }
        }
      }
    }
  }

  /** Inserting `x` appends it to the elements sharing its label and leaves
      the relative order of every label unchanged. */
  lemma {:induction false} InsertStable(x: Choice, s: seq<Choice>, l: string)
    ensures Filter(Insert(x, s), HasLabel(l)) == Filter(s, HasLabel(l)) + Filter([x], HasLabel(l))
  {
    FilterSingleton(x, HasLabel(l));
    if s == [] {
      assert Insert(x, s) == [] + [x];
    } else {
      var init := s[..|s| - 1];
      var last := s[|s| - 1];
      assert s == init + [last];
      FilterSingleton(last, HasLabel(l));
      if LexLe(last.display, x.display) {
        FilterAppend(s, [x], HasLabel(l));
      } else {
        InsertStable(x, init, l);
        FilterAppend(Insert(x, init), [last], HasLabel(l));
        FilterAppend(init, [last], HasLabel(l));
        LexLeReflexive(x.display);
      }
    }
  }

  lemma {:induction false} LexLeReflexive(a: string)
    ensures LexLe(a, a)
    decreases |a|
  {
    if a != [] {
      LexLeReflexive(a[1..]);
    }
  }

  lemma FilterSingleton(x: Choice, p: Choice -> bool)
    ensures Filter([x], p) == if p(x) then [x] else []
  {
    assert [x][..0] == [];
  }

  /** A stable insertion sort by label. */
  function SortByLabel(s: seq<Choice>): (r: seq<Choice>)
    ensures |r| == |s|
    ensures forall c :: c in r <==> c in s
  {
    if s == [] then []
    else
      assert s == s[..|s| - 1] + [s[|s| - 1]];
      Insert(s[|s| - 1], SortByLabel(s[..|s| - 1]))
  }

  /** The sort orders by label, keeps every element, and keeps the order of
      elements with equal labels (Python's sort is stable). */
  lemma {:induction false} SortByLabelSpec(s: seq<Choice>)
    ensures SortedByLabel(SortByLabel(s))
    ensures multiset(SortByLabel(s)) == multiset(s)
    ensures forall l :: Filter(SortByLabel(s), HasLabel(l)) == Filter(s, HasLabel(l))
  {
    if s != [] {
      var init := s[..|s| - 1];
      var x := s[|s| - 1];
      assert s == init + [x];
      SortByLabelSpec(init);
      InsertSorted(x, SortByLabel(init));
      forall l ensures Filter(SortByLabel(s), HasLabel(l)) == Filter(s, HasLabel(l)) {
        InsertStable(x, SortByLabel(init), l);
        FilterAppend(init, [x], HasLabel(l));
      }
    }
  }

  /** `get_airport_choices(airports)`. */
  method GetAirportChoices(airports: seq<AirportRecord>) returns (choices: seq<Choice>)
    ensures choices == SortByLabel(Candidates(airports))
    ensures SortedByLabel(choices)
    ensures multiset(choices) == multiset(Candidates(airports))
    ensures forall c :: c in choices <==>
              exists i :: 0 <= i < |airports| && Eligible(airports[i]) && c == ChoiceOf(airports[i])
    ensures forall l :: Filter(choices, HasLabel(l)) == Filter(Candidates(airports), HasLabel(l))
    ensures |choices| <= |airports|
  {
    var airportChoices: seq<Choice> := [];
    var i := 0;
    while i < |airports|
      invariant 0 <= i <= |airports|
      invariant airportChoices == Candidates(airports[..i])
    {
      assert airports[..i + 1][..i] == airports[..i];
      var airport := airports[i];
      if Truthy(airport.iataCode) && Truthy(airport.name) {
        airportChoices := airportChoices + [ChoiceOf(airport)];
      }
      i := i + 1;
    }
    assert airports[..i] == airports;
    SortByLabelSpec(airportChoices);
    choices := SortByLabel(airportChoices);
    forall c ensures c in choices <==>
                     exists k :: 0 <= k < |airports| && Eligible(airports[k]) && c == ChoiceOf(airports[k])
    {
      assert c in choices <==> c in multiset(choices);
      CandidatesExactly(airports, c);
    }
  }
}
