/** The reasoning boundary walk (pmqa/reasoning/scrubber.py): runtime objects are rejected,
    prohibited fields removed and reported, strings redacted. */
module ReasoningScrubber {
  import opened Wrappers
  import opened Boundary
  import opened Sequences
  import Decimals

  datatype Key = TextKey(text: string) | OtherKey

  datatype Entry = Entry(key: Key, value: Value)

  /** A Python value; a dictionary lists its entries in the order of their keys, and Runtime is
      anything the boundary does not support. */
  datatype Value =
    | Null
    | Bool(b: bool)
    | Int(n: int)
    | Finite(x: real)
    | NonFinite
    | Text(s: string)
    | Enum(payload: Value)
    | Dict(entries: seq<Entry>)
    | List(items: seq<Value>, isTuple: bool)
    | Runtime

  /** Redaction of one string: the new text and the rule of every replacement made. */
  type Redactor = string -> (string, seq<string>)

  datatype Redaction = Redaction(path: string, rule: string)

  // ----- paths -----

  datatype PathStep = Field(key: string) | Index(i: nat)

  type Position = seq<PathStep>

  function Extend(path: string, step: PathStep): string {
    match step
    case Field(key) => if path != "" then path + "." + key else key
    case Index(i) => path + "[" + Decimals.Digits(i) + "]"
  }

  /** The text of a position below a given path. */
  function PathText(path: string, p: Position): string
    decreases p
  {
    if p == [] then path else PathText(Extend(path, p[0]), p[1..])
  }

  function PathTexts(path: string, ps: seq<Position>): (r: seq<string>)
    ensures |r| == |ps| && forall i :: 0 <= i < |r| ==> r[i] == PathText(path, ps[i])
  {
    seq(|ps|, i requires 0 <= i < |ps| => PathText(path, ps[i]))
  }

  function DisplayPath(path: string): string {
    if path == "" then "input" else path
  }

  function Below(step: PathStep, ps: seq<Position>): (r: seq<Position>)
    ensures |r| == |ps| && forall i :: 0 <= i < |r| ==> r[i] == [step] + ps[i]
  {
    seq(|ps|, i requires 0 <= i < |ps| => [step] + ps[i])
  }

  lemma BelowTexts(path: string, step: PathStep, ps: seq<Position>)
    ensures PathTexts(path, Below(step, ps)) == PathTexts(Extend(path, step), ps)
  {
    forall i | 0 <= i < |ps| ensures PathText(path, [step] + ps[i]) == PathText(Extend(path, step), ps[i]) {
      assert ([step] + ps[i])[1..] == ps[i];
    }
  }

  // ----- what the walk computes -----

  predicate Removes(e: Entry) {
    e.key.TextKey? && IsProhibitedForReasoning(e.key.text)
  }

  /** The walk succeeds: outside removed fields every value and key is supported. */
  predicate Sanitizable(v: Value)
    decreases v
  {
    match v
    case NonFinite => false
    case Runtime => false
    case Enum(x) => Sanitizable(x)
    case Dict(es) => forall i :: 0 <= i < |es| ==> es[i].key.TextKey? && (Removes(es[i]) || Sanitizable(es[i].value))
    case List(xs, _) => forall i :: 0 <= i < |xs| ==> Sanitizable(xs[i])
    case _ => true
  }

  function Breadth(v: Value): nat {
    match v
    case Dict(es) => |es|
    case List(xs, _) => |xs|
    case _ => 0
  }

  /** The sanitized value. */
  function Clean(v: Value, redact: Redactor): Value
    requires Sanitizable(v)
    decreases v, Breadth(v) + 1
  {
    match v
    case Text(s) => Text(redact(s).0)
    case Enum(x) => Clean(x, redact)
    case Dict(es) => Dict(CleanEntries(v, |es|, redact))
    case List(xs, _) => List(CleanItems(v, |xs|, redact), false)
    case _ => v
  }

  /** The sanitized first n entries: removed fields leave no trace. */
  function CleanEntries(v: Value, n: nat, redact: Redactor): seq<Entry>
    requires v.Dict? && n <= |v.entries|
    requires forall i :: 0 <= i < n ==>
             v.entries[i].key.TextKey? && (Removes(v.entries[i]) || Sanitizable(v.entries[i].value))
    decreases v, n
  {
    if n == 0 then []
    else
      var init, last := CleanEntries(v, n - 1, redact), v.entries[n - 1];
      if Removes(last) then init else init + [Entry(last.key, Clean(last.value, redact))]
  }

  function CleanItems(v: Value, n: nat, redact: Redactor): (r: seq<Value>)
    requires v.List? && n <= |v.items| && forall i :: 0 <= i < n ==> Sanitizable(v.items[i])
    ensures |r| == n && forall i :: 0 <= i < n ==> r[i] == Clean(v.items[i], redact)
    decreases v, n
  {
    if n == 0 then [] else CleanItems(v, n - 1, redact) + [Clean(v.items[n - 1], redact)]
  }

  /** The positions of removed fields, in the order they are reported. */
  function Removed(v: Value): seq<Position>
    decreases v, Breadth(v) + 1
  {
    match v
    case Enum(x) => Removed(x)
    case Dict(es) => RemovedEntries(v, |es|)
    case List(xs, _) => RemovedItems(v, |xs|)
    case _ => []
  }

  function RemovedEntries(v: Value, n: nat): seq<Position>
    requires v.Dict? && n <= |v.entries|
    decreases v, n
  {
    if n == 0 then []
    else
      var last := v.entries[n - 1];
      RemovedEntries(v, n - 1) +
      (if last.key.OtherKey? then []
       else if Removes(last) then [[Field(last.key.text)]]
       else Below(Field(last.key.text), Removed(last.value)))
  }

  function RemovedItems(v: Value, n: nat): seq<Position>
    requires v.List? && n <= |v.items|
    decreases v, n
  {
    if n == 0 then [] else RemovedItems(v, n - 1) + Below(Index(n - 1), Removed(v.items[n - 1]))
  }

  function Hits(path: string, rules: seq<string>): seq<Redaction> {
    seq(|rules|, i requires 0 <= i < |rules| => Redaction(path, rules[i]))
  }

  function Redactions(v: Value, path: string, redact: Redactor): seq<Redaction>
    decreases v, Breadth(v) + 1
  {
    match v
    case Text(s) => Hits(DisplayPath(path), redact(s).1)
    case Enum(x) => Redactions(x, path, redact)
    case Dict(es) => EntryRedactions(v, |es|, path, redact)
    case List(xs, _) => ItemRedactions(v, |xs|, path, redact)
    case _ => []
  }

  function EntryRedactions(v: Value, n: nat, path: string, redact: Redactor): seq<Redaction>
    requires v.Dict? && n <= |v.entries|
    decreases v, n
  {
    if n == 0 then []
    else
      var last := v.entries[n - 1];
      EntryRedactions(v, n - 1, path, redact) +
      (if last.key.OtherKey? || Removes(last) then [] else Redactions(last.value, Extend(path, Field(last.key.text)),
                                                                      redact))
  }

  function ItemRedactions(v: Value, n: nat, path: string, redact: Redactor): seq<Redaction>
    requires v.List? && n <= |v.items|
    decreases v, n
  {
    if n == 0 then []
    else ItemRedactions(v, n - 1, path, redact) + Redactions(v.items[n - 1], Extend(path, Index(n - 1)), redact)
  }

  const REMOVAL_RULE := "prohibited-key-removal"

  /** The rules that removals and redactions bring in. */
  function RulesOf(removed: seq<string>, redactions: seq<Redaction>): set<string> {
    (if removed == [] then {} else {REMOVAL_RULE}) + set r | r in redactions :: r.rule
  }

  lemma RulesConcat(a: seq<string>, b: seq<string>, x: seq<Redaction>, y: seq<Redaction>)
    ensures RulesOf(a + b, x + y) == RulesOf(a, x) + RulesOf(b, y)
  {}

  // ----- the walk -----

  class Walker {
    var removed: seq<string>
    var redactions: seq<Redaction>
    var rules: set<string>

    constructor ()
      ensures removed == [] && redactions == [] && rules == {}
    {
      removed, redactions, rules := [], [], {};
    }

    /** The walk raises exactly on unsupported values; otherwise it returns the sanitized value
        and extends the three accumulators by what it removed and redacted. */
    method Sanitize(value: Value, path: string, redact: Redactor) returns (r: Option<Value>)
      modifies this
      ensures r.Some? <==> Sanitizable(value)
      ensures r.Some? ==>
                && r.value == Clean(value, redact)
                && removed == old(removed) + PathTexts(path, Removed(value))
                && redactions == old(redactions) + Redactions(value, path, redact)
                && rules == old(rules) + RulesOf(PathTexts(path, Removed(value)), Redactions(value, path, redact))
      decreases value, 1
    {
      match value
      case NonFinite =>
        r := None;
      case Runtime =>
        r := None;
      case Text(s) =>
        RedactString(s, DisplayPath(path), redact);
        NothingRemoved(path, Redactions(value, path, redact));
        r := Some(Text(redact(s).0));
      case Enum(x) =>
        r := Sanitize(x, path, redact);
      case Dict(_) =>
        r := SanitizeEntries(value, path, redact);
      case List(_, _) =>
        r := SanitizeItems(value, path, redact);
      case _ =>
        NothingRemoved(path, []);
        r := Some(value);
    }

    method RedactString(s: string, path: string, redact: Redactor)
      modifies this`redactions, this`rules
      ensures redactions == old(redactions) + Hits(path, redact(s).1)
      ensures rules == old(rules) + set r | r in Hits(path, redact(s).1) :: r.rule
    {
      redactions := redactions + Hits(path, redact(s).1);
      rules := rules + set r | r in Hits(path, redact(s).1) :: r.rule;
    }

    method SanitizeEntries(value: Value, path: string, redact: Redactor) returns (r: Option<Value>)
      requires value.Dict?
      modifies this
      ensures r.Some? <==> Sanitizable(value)
      ensures r.Some? ==>
                && r.value == Clean(value, redact)
                && removed == old(removed) + PathTexts(path, Removed(value))
                && redactions == old(redactions) + Redactions(value, path, redact)
                && rules == old(rules) + RulesOf(PathTexts(path, Removed(value)), Redactions(value, path, redact))
      decreases value, 0
    {
      hide PathTexts, RulesOf, Extend, IsProhibitedForReasoning, RemovedEntries, EntryRedactions, Removed, Redactions,
           CleanEntries, Sanitizable;
      DictReport(value, path, redact);
      DictClean(value, redact);
      var es := value.entries;
      var sanitized: seq<Entry> := [];
      for i := 0 to |es|
        invariant forall k :: 0 <= k < i ==> es[k].key.TextKey? && (Removes(es[k]) || Sanitizable(es[k].value))
        invariant sanitized == CleanEntries(value, i, redact)
        invariant removed == old(removed) + PathTexts(path, RemovedEntries(value, i))
        invariant redactions == old(redactions) + EntryRedactions(value, i, path, redact)
        invariant rules == old(rules) + RulesOf(PathTexts(path, RemovedEntries(value, i)),
                                                EntryRedactions(value, i, path, redact))
      {
        if es[i].key.OtherKey? {
          return None;
        }
        var key := es[i].key.text;
        var childPath := Extend(path, Field(key));
        EntryStep(value, i, path, redact);
        ghost var texts, reported := PathTexts(path, RemovedEntries(value, i)), EntryRedactions(value, i, path, redact);
        if IsProhibitedForReasoning(key) {
          Associates(old(removed), texts, [childPath]);
          CleanSkips(value, i, redact);
          removed := removed + [childPath];
          rules := rules + {REMOVAL_RULE};
        } else {
          Associates(old(removed), texts, PathTexts(childPath, Removed(es[i].value)));
          Associates(old(redactions), reported, Redactions(es[i].value, childPath, redact));
          var child := Sanitize(es[i].value, childPath, redact);
          if child.None? {
            return None;
          }
          CleanStep(value, i, redact);
          sanitized := sanitized + [Entry(es[i].key, child.value)];
        }
      }
      r := Some(Dict(sanitized));
    }

    method SanitizeItems(value: Value, path: string, redact: Redactor) returns (r: Option<Value>)
      requires value.List?
      modifies this
      ensures r.Some? <==> Sanitizable(value)
      ensures r.Some? ==>
                && r.value == Clean(value, redact)
                && removed == old(removed) + PathTexts(path, Removed(value))
                && redactions == old(redactions) + Redactions(value, path, redact)
                && rules == old(rules) + RulesOf(PathTexts(path, Removed(value)), Redactions(value, path, redact))
      decreases value, 0
    {
      hide PathTexts, RulesOf, Extend, RemovedItems, ItemRedactions, Removed, Redactions, Sanitizable, CleanItems;
      ListReport(value, path, redact);
      ListClean(value, redact);
      var xs := value.items;
      var sanitized: seq<Value> := [];
      for i := 0 to |xs|
        invariant forall k :: 0 <= k < i ==> Sanitizable(xs[k])
        invariant sanitized == CleanItems(value, i, redact)
        invariant removed == old(removed) + PathTexts(path, RemovedItems(value, i))
        invariant redactions == old(redactions) + ItemRedactions(value, i, path, redact)
        invariant rules == old(rules) + RulesOf(PathTexts(path, RemovedItems(value, i)),
                                                ItemRedactions(value, i, path, redact))
      {
        ItemStep(value, i, path, redact);
        Associates(old(removed), PathTexts(path, RemovedItems(value, i)),
                   PathTexts(Extend(path, Index(i)), Removed(xs[i])));
        Associates(old(redactions), ItemRedactions(value, i, path, redact), Redactions(xs[i], Extend(path, Index(i)),
          redact));
        var child := Sanitize(xs[i], Extend(path, Index(i)), redact);
        if child.None? {
          return None;
        }
        CleanItemStep(value, i, redact);
        sanitized := sanitized + [child.value];
      }
      r := Some(List(sanitized, false));
    }
  }

  lemma NothingRemoved(path: string, found: seq<Redaction>)
    ensures PathTexts(path, []) == [] && RulesOf([], found) == set r | r in found :: r.rule
  {}

  lemma Associates<T>(a: seq<T>, b: seq<T>, c: seq<T>)
    ensures (a + b) + c == a + (b + c)
  {}

  lemma DictReport(v: Value, path: string, redact: Redactor)
    requires v.Dict?
    ensures PathTexts(path, RemovedEntries(v, 0)) == [] && EntryRedactions(v, 0, path, redact) == []
    ensures RulesOf(PathTexts(path, RemovedEntries(v, 0)), EntryRedactions(v, 0, path, redact)) == {}
    ensures Removed(v) == RemovedEntries(v, |v.entries|)
            && Redactions(v, path, redact) == EntryRedactions(v, |v.entries|, path, redact)
  {}

  lemma ListReport(v: Value, path: string, redact: Redactor)
    requires v.List?
    ensures PathTexts(path, RemovedItems(v, 0)) == [] && ItemRedactions(v, 0, path, redact) == []
    ensures RulesOf(PathTexts(path, RemovedItems(v, 0)), ItemRedactions(v, 0, path, redact)) == {}
    ensures Removed(v) == RemovedItems(v, |v.items|) && Redactions(v, path, redact) == ItemRedactions(v, |v.items|,
            path, redact)
  {}

  lemma DictClean(v: Value, redact: Redactor)
    requires v.Dict?
    ensures CleanEntries(v, 0, redact) == []
    ensures Sanitizable(v) <==>
              forall i :: 0 <= i < |v.entries| ==>
                  v.entries[i].key.TextKey? && (Removes(v.entries[i]) || Sanitizable(v.entries[i].value))
    ensures Sanitizable(v) ==> Clean(v, redact) == Dict(CleanEntries(v, |v.entries|, redact))
  {
    hide IsProhibitedForReasoning;
  }

  lemma ListClean(v: Value, redact: Redactor)
    requires v.List?
    ensures CleanItems(v, 0, redact) == []
    ensures Sanitizable(v) <==> forall i :: 0 <= i < |v.items| ==> Sanitizable(v.items[i])
    ensures Sanitizable(v) ==> Clean(v, redact) == List(CleanItems(v, |v.items|, redact), false)
  {}

  lemma CleanItemStep(v: Value, i: nat, redact: Redactor)
    requires v.List? && i < |v.items| && forall k :: 0 <= k <= i ==> Sanitizable(v.items[k])
    ensures CleanItems(v, i + 1, redact) == CleanItems(v, i, redact) + [Clean(v.items[i], redact)]
  {
    hide Sanitizable, Clean;
  }

  lemma CleanSkips(v: Value, i: nat, redact: Redactor)
    requires v.Dict? && i < |v.entries| && Removes(v.entries[i])
    requires forall k :: 0 <= k < i ==>
             v.entries[k].key.TextKey? && (Removes(v.entries[k]) || Sanitizable(v.entries[k].value))
    ensures CleanEntries(v, i + 1, redact) == CleanEntries(v, i, redact)
  {
    hide IsProhibitedForReasoning, Sanitizable;
  }

  lemma CleanStep(v: Value, i: nat, redact: Redactor)
    requires v.Dict? && i < |v.entries| && !Removes(v.entries[i])
    requires forall k :: 0 <= k <= i ==>
             v.entries[k].key.TextKey? && (Removes(v.entries[k]) || Sanitizable(v.entries[k].value))
    ensures CleanEntries(v, i + 1, redact)
         == CleanEntries(v, i, redact) + [Entry(v.entries[i].key, Clean(v.entries[i].value, redact))]
  {
    hide IsProhibitedForReasoning, Sanitizable, Clean;
  }

  /** What one more entry adds to the report. */
  lemma EntryStep(v: Value, i: nat, path: string, redact: Redactor)
    requires v.Dict? && i < |v.entries| && v.entries[i].key.TextKey?
    ensures var e := v.entries[i];
            var child := Extend(path, Field(e.key.text));
            var texts, reported := PathTexts(path, RemovedEntries(v, i)), EntryRedactions(v, i, path, redact);
            if Removes(e) then
              && PathTexts(path, RemovedEntries(v, i + 1)) == texts + [child]
              && EntryRedactions(v, i + 1, path, redact) == reported
              && RulesOf(texts + [child], reported) == RulesOf(texts, reported) + {REMOVAL_RULE}
            else
              var below, more := PathTexts(child, Removed(e.value)), Redactions(e.value, child, redact);
              && PathTexts(path, RemovedEntries(v, i + 1)) == texts + below
              && EntryRedactions(v, i + 1, path, redact) == reported + more
              && RulesOf(texts + below, reported + more) == RulesOf(texts, reported) + RulesOf(below, more)
  {
    hide IsProhibitedForReasoning, Extend;
    var e := v.entries[i];
    var child := Extend(path, Field(e.key.text));
    var earlier, reported := RemovedEntries(v, i), EntryRedactions(v, i, path, redact);
    if Removes(e) {
      RemovedField(path, e.key.text, earlier);
      RulesConcat(PathTexts(path, earlier), [child], reported, []);
      assert RulesOf([child], []) == {REMOVAL_RULE};
      assert reported + [] == reported;
    } else {
      EarlierAndBelow(path, Field(e.key.text), earlier, Removed(e.value));
      RulesConcat(PathTexts(path, earlier), PathTexts(child, Removed(e.value)), reported,
                  Redactions(e.value, child, redact));
    }
    hide PathTexts, RulesOf;
  }

  lemma ItemStep(v: Value, i: nat, path: string, redact: Redactor)
    requires v.List? && i < |v.items|
    ensures var child := Extend(path, Index(i));
            var texts, reported := PathTexts(path, RemovedItems(v, i)), ItemRedactions(v, i, path, redact);
            var below, more := PathTexts(child, Removed(v.items[i])), Redactions(v.items[i], child, redact);
            && PathTexts(path, RemovedItems(v, i + 1)) == texts + below
            && ItemRedactions(v, i + 1, path, redact) == reported + more
            && RulesOf(texts + below, reported + more) == RulesOf(texts, reported) + RulesOf(below, more)
  {
    hide Extend;
    var child := Extend(path, Index(i));
    var earlier, reported := RemovedItems(v, i), ItemRedactions(v, i, path, redact);
    EarlierAndBelow(path, Index(i), earlier, Removed(v.items[i]));
    RulesConcat(PathTexts(path, earlier), PathTexts(child, Removed(v.items[i])), reported,
                Redactions(v.items[i], child, redact));
    hide PathTexts, RulesOf;
  }

  lemma RemovedField(path: string, key: string, earlier: seq<Position>)
    ensures PathTexts(path, earlier + [[Field(key)]]) == PathTexts(path, earlier) + [Extend(path, Field(key))]
  {
    assert [Field(key)][1..] == [];
    assert PathText(path, [Field(key)]) == PathText(Extend(path, Field(key)), []);
  }

  lemma EarlierAndBelow(path: string, step: PathStep, earlier: seq<Position>, ps: seq<Position>)
    ensures PathTexts(path, earlier + Below(step, ps)) == PathTexts(path, earlier) + PathTexts(Extend(path, step), ps)
  {
    BelowTexts(path, step, ps);
  }

  // ----- positions -----

  function Unwrap(v: Value): (u: Value)
    ensures !u.Enum?
    decreases v
  {
    if v.Enum? then Unwrap(v.payload) else v
  }

  function Find(es: seq<Entry>, key: string): Option<Value> {
    if es == [] then None
    else if es[|es| - 1].key == TextKey(key) then Some(es[|es| - 1].value)
    else Find(es[..|es| - 1], key)
  }

  /** The value at a position; enumeration members are looked through. */
  function At(v: Value, p: Position): Option<Value>
    decreases p
  {
    var u := Unwrap(v);
    if p == [] then Some(u)
    else
      match p[0]
      case Index(i) => if u.List? && i < |u.items| then At(u.items[i], p[1..]) else None
      case Field(key) =>
        if !u.Dict? then None
        else
          match Find(u.entries, key)
          case None => None
          case Some(child) => At(child, p[1..])
  }

  predicate Prohibits(step: PathStep) {
    step.Field? && IsProhibitedForReasoning(step.key)
  }

  predicate Kept(p: Position) {
    forall i :: 0 <= i < |p| ==> !Prohibits(p[i])
  }

  /** A prohibited field below no other prohibited field. */
  predicate Topmost(v: Value, p: Position) {
    p != [] && Prohibits(p[|p| - 1]) && Kept(p[..|p| - 1]) && At(v, p).Some?
  }

  /** The same value, except that strings are rewritten and containers are compared by kind. */
  predicate Rewritten(a: Value, b: Value, redact: Redactor) {
    match a
    case Text(s) => b == Text(redact(s).0)
    case Dict(_) => b.Dict?
    case List(xs, _) => b.List? && |b.items| == |xs| && !b.isTuple
    case _ => b == a
  }

  lemma {:induction false} FindMember(es: seq<Entry>, key: string) returns (i: nat)
    requires Find(es, key).Some?
    ensures i < |es| && es[i].key == TextKey(key) && Find(es, key) == Some(es[i].value)
  {
    if es[|es| - 1].key == TextKey(key) {
      i := |es| - 1;
    } else {
      i := FindMember(es[..|es| - 1], key);
    }
  }

  lemma {:induction false} FindUnique(es: seq<Entry>, i: nat)
    requires i < |es| && es[i].key.TextKey? && forall a, b :: 0 <= a < b < |es| ==> es[a].key != es[b].key
    ensures Find(es, es[i].key.text) == Some(es[i].value)
  {
    if i < |es| - 1 {
      FindUnique(es[..|es| - 1], i);
    }
  }

  lemma {:induction false} CleanUnwraps(v: Value, redact: Redactor)
    requires Sanitizable(v)
    ensures Sanitizable(Unwrap(v)) && Clean(v, redact) == Clean(Unwrap(v), redact)
    ensures Unwrap(Clean(v, redact)) == Clean(v, redact)
    decreases v
  {
    if v.Enum? {
      CleanUnwraps(v.payload, redact);
    }
  }

  /** Looking a key up in the cleaned entries: nothing for a prohibited key, otherwise the
      cleaned value of the original entry. */
  lemma {:induction false} FindCleaned(v: Value, n: nat, key: string, redact: Redactor)
    requires v.Dict? && n <= |v.entries|
    requires forall i :: 0 <= i < n ==>
             v.entries[i].key.TextKey? && (Removes(v.entries[i]) || Sanitizable(v.entries[i].value))
    ensures Find(v.entries[..n], key).Some? && !IsProhibitedForReasoning(key) ==>
            Sanitizable(Find(v.entries[..n], key).value)
    ensures Find(CleanEntries(v, n, redact), key) ==
            if IsProhibitedForReasoning(key) || Find(v.entries[..n], key).None? then None
            else Some(Clean(Find(v.entries[..n], key).value, redact))
    decreases n
  {
    hide IsProhibitedForReasoning, Sanitizable, Clean, CleanEntries, Find;
    if n == 0 {
      NothingCleaned(v, key, redact);
    } else {
      FindCleaned(v, n - 1, key, redact);
      var last := v.entries[n - 1];
      assert v.entries[..n] == v.entries[..n - 1] + [last];
      FindPush(v.entries[..n - 1], last, key);
      if Removes(last) {
        CleanSkips(v, n - 1, redact);
      } else {
        CleanStep(v, n - 1, redact);
        FindPush(CleanEntries(v, n - 1, redact), Entry(last.key, Clean(last.value, redact)), key);
      }
    }
  }

  lemma NothingCleaned(v: Value, key: string, redact: Redactor)
    requires v.Dict?
    ensures CleanEntries(v, 0, redact) == [] && v.entries[..0] == [] && Find([], key).None?
  {}

  lemma FindPush(es: seq<Entry>, e: Entry, key: string)
    ensures Find(es + [e], key) == if e.key == TextKey(key) then Some(e.value) else Find(es, key)
  {
    assert (es + [e])[..|es|] == es;
  }

  /** No position with a prohibited field survives; every other position survives, and what is
      there is the same value with only its string rewritten. */
  lemma {:induction false} CleanAt(v: Value, p: Position, redact: Redactor)
    requires Sanitizable(v)
    ensures At(Clean(v, redact), p).Some? <==> At(v, p).Some? && Kept(p)
    ensures At(Clean(v, redact), p).Some? ==> Rewritten(At(v, p).value, At(Clean(v, redact), p).value, redact)
    decreases p
  {
    CleanUnwraps(v, redact);
    var u := Unwrap(v);
    if p != [] {
      assert p == [p[0]] + p[1..];
      KeptTail(p);
      match p[0]
      case Index(i) =>
        if u.List? && i < |u.items| {
          CleanAt(u.items[i], p[1..], redact);
        }
      case Field(key) =>
        if u.Dict? {
          assert u.entries[..|u.entries|] == u.entries;
          FindCleaned(u, |u.entries|, key, redact);
          if Find(u.entries, key).Some? && !IsProhibitedForReasoning(key) {
            CleanAt(Find(u.entries, key).value, p[1..], redact);
          }
        }
    }
    hide IsProhibitedForReasoning;
  }

  lemma KeptTail(p: Position)
    requires p != []
    ensures Kept(p) <==> !Prohibits(p[0]) && Kept(p[1..])
  {
    hide Prohibits;
    if !Prohibits(p[0]) && Kept(p[1..]) {
      forall i | 0 <= i < |p| ensures !Prohibits(p[i]) {
        assert i > 0 ==> p[i] == p[1..][i - 1];
      }
    }
  }

  // ----- the report -----

  /** No dictionary repeats a key, as no dictionary does. */
  predicate UniqueKeys(v: Value)
    decreases v
  {
    match v
    case Enum(x) => UniqueKeys(x)
    case Dict(es) =>
      && (forall i, j :: 0 <= i < j < |es| ==> es[i].key != es[j].key)
      && (forall i :: 0 <= i < |es| ==> UniqueKeys(es[i].value))
    case List(xs, _) => forall i :: 0 <= i < |xs| ==> UniqueKeys(xs[i])
    case _ => true
  }

  predicate RemovedBelow(e: Entry, p: Position) {
    && e.key.TextKey? && p != [] && p[0] == Field(e.key.text)
    && if Removes(e) then |p| == 1 else p[1..] in Removed(e.value)
  }

  lemma InBelow(step: PathStep, ps: seq<Position>, p: Position)
    ensures p in Below(step, ps) <==> p != [] && p[0] == step && p[1..] in ps
  {
    if p != [] && p[0] == step && p[1..] in ps {
      var i :| 0 <= i < |ps| && ps[i] == p[1..];
      assert Below(step, ps)[i] == p;
    }
    if p in Below(step, ps) {
      var i :| 0 <= i < |ps| && Below(step, ps)[i] == p;
      assert p[1..] == ps[i];
    }
  }

  lemma {:induction false} RemovedEntriesAre(v: Value, n: nat, p: Position)
    requires v.Dict? && n <= |v.entries|
    ensures p in RemovedEntries(v, n) <==> exists i :: 0 <= i < n && RemovedBelow(v.entries[i], p)
    decreases n
  {
    hide RemovedEntries, RemovedBelow;
    if n == 0 {
      NothingYet(v);
    } else {
      RemovedPush(v, n, p);
      RemovedEntriesAre(v, n - 1, p);
    }
  }

  lemma NothingYet(v: Value)
    requires v.Dict?
    ensures RemovedEntries(v, 0) == []
  {}

  lemma RemovedPush(v: Value, n: nat, p: Position)
    requires v.Dict? && 0 < n <= |v.entries|
    ensures p in RemovedEntries(v, n) <==> p in RemovedEntries(v, n - 1) || RemovedBelow(v.entries[n - 1], p)
  {
    hide IsProhibitedForReasoning, Removed, Below;
    var last := v.entries[n - 1];
    if last.key.TextKey? {
      InBelow(Field(last.key.text), Removed(last.value), p);
      assert p == [Field(last.key.text)] <==> |p| == 1 && p[0] == Field(last.key.text);
    }
  }

  lemma {:induction false} RemovedItemsAre(v: Value, n: nat, p: Position)
    requires v.List? && n <= |v.items|
    ensures p in RemovedItems(v, n) <==>
              p != [] && p[0].Index? && p[0].i < n && p[1..] in Removed(v.items[p[0].i])
    decreases n
  {
    if n > 0 {
      hide Removed, Below;
      RemovedItemsAre(v, n - 1, p);
      InBelow(Index(n - 1), Removed(v.items[n - 1]), p);
    }
  }

  lemma TopmostTail(p: Position)
    requires |p| > 1
    ensures p[1..][|p[1..]| - 1] == p[|p| - 1]
    ensures Kept(p[..|p| - 1]) <==> !Prohibits(p[0]) && Kept(p[1..][..|p| - 2])
  {
    KeptTail(p[..|p| - 1]);
    assert p[..|p| - 1][1..] == p[1..][..|p| - 2];
  }

  /** The report names exactly the topmost prohibited fields. */
  lemma {:induction false} ReportsExactly(v: Value, p: Position)
    requires UniqueKeys(v)
    ensures p in Removed(v) <==> Topmost(v, p)
    decreases v
  {
    match v
    case Enum(x) => ReportsExactly(x, p);
    case Dict(es) => ReportsFields(v, p);
    case List(xs, _) => ReportsItems(v, p);
    case _ =>
  }

  lemma ReportsFields(v: Value, p: Position)
    requires v.Dict? && UniqueKeys(v)
    ensures p in Removed(v) <==> Topmost(v, p)
    decreases v, 1
  {
    var es := v.entries;
    RemovedEntriesAre(v, |es|, p);
    assert Removed(v) == RemovedEntries(v, |es|);
    hide IsProhibitedForReasoning, RemovedEntries, RemovedBelow, Removed, Topmost, UniqueKeys;
    if i :| 0 <= i < |es| && RemovedBelow(es[i], p) {
      FieldIsTopmost(v, i, p);
    }
    if Topmost(v, p) {
      var i := TopmostIsField(v, p);
    }
  }

  lemma TopmostIsField(v: Value, p: Position) returns (i: nat)
    requires v.Dict? && UniqueKeys(v) && Topmost(v, p)
    ensures i < |v.entries| && RemovedBelow(v.entries[i], p)
    decreases v, 0
  {
    hide IsProhibitedForReasoning;
    assert p[0].Field?;
    i := FindMember(v.entries, p[0].key);
    if |p| > 1 {
      TopmostTail(p);
      ReportsExactly(v.entries[i].value, p[1..]);
    } else {
      assert p[0] == p[|p| - 1];
    }
  }

  lemma FieldIsTopmost(v: Value, i: nat, p: Position)
    requires v.Dict? && UniqueKeys(v) && i < |v.entries| && RemovedBelow(v.entries[i], p)
    ensures Topmost(v, p)
    decreases v, 0
  {
    var e := v.entries[i];
    hide IsProhibitedForReasoning;
    FindUnique(v.entries, i);
    if Removes(e) {
      assert p[1..] == [] && p[|p| - 1] == p[0] && p[..|p| - 1] == [];
      assert At(e.value, p[1..]).Some?;
    } else {
      ReportsExactly(e.value, p[1..]);
      assert p[1..] != [];
      TopmostTail(p);
    }
  }

  lemma ReportsItems(v: Value, p: Position)
    requires v.List? && UniqueKeys(v)
    ensures p in Removed(v) <==> Topmost(v, p)
    decreases v, 0
  {
    RemovedItemsAre(v, |v.items|, p);
    hide IsProhibitedForReasoning;
    if p != [] && p[0].Index? && p[0].i < |v.items| {
      ReportsExactly(v.items[p[0].i], p[1..]);
      if |p| > 1 {
        TopmostTail(p);
      } else {
        assert p[1..] == [];
      }
    }
  }

  lemma BelowDistinct(step: PathStep, ps: seq<Position>)
    requires Distinct(ps)
    ensures Distinct(Below(step, ps))
  {
    forall i, j | 0 <= i < j < |ps| ensures Below(step, ps)[i] != Below(step, ps)[j] {
      assert Below(step, ps)[i][1..] == ps[i] && Below(step, ps)[j][1..] == ps[j];
    }
  }

  lemma ApartDistinct(a: seq<Position>, b: seq<Position>)
    requires Distinct(a) && Distinct(b) && forall p :: p in a ==> p !in b
    ensures Distinct(a + b)
  {
    forall i, j | 0 <= i < j < |a + b| ensures (a + b)[i] != (a + b)[j] {
      if i < |a| <= j {
        assert a[i] in a && (a + b)[j] in b;
      }
    }
  }

  /** What one entry adds to the report. */
  function EntryReport(e: Entry): seq<Position> {
    if e.key.OtherKey? then []
    else if Removes(e) then [[Field(e.key.text)]]
    else Below(Field(e.key.text), Removed(e.value))
  }

  lemma ReportPush(v: Value, n: nat)
    requires v.Dict? && 0 < n <= |v.entries|
    ensures RemovedEntries(v, n) == RemovedEntries(v, n - 1) + EntryReport(v.entries[n - 1])
  {
    hide IsProhibitedForReasoning, Below;
  }

  lemma EntryReportFields(e: Entry)
    requires Distinct(Removed(e.value))
    ensures Distinct(EntryReport(e))
    ensures forall p :: p in EntryReport(e) ==> e.key.TextKey? && p != [] && p[0] == Field(e.key.text)
  {
    hide IsProhibitedForReasoning, Distinct, Below, Removed;
    if e.key.OtherKey? {
      NoneDistinct();
    } else if Removes(e) {
      OneDistinct([Field(e.key.text)]);
    } else {
      BelowDistinct(Field(e.key.text), Removed(e.value));
      forall p | p in EntryReport(e) ensures p != [] && p[0] == Field(e.key.text) {
        InBelow(Field(e.key.text), Removed(e.value), p);
      }
    }
  }

  lemma NoneDistinct()
    ensures Distinct<Position>([])
  {}

  lemma {:induction false} EntriesDistinct(v: Value, n: nat)
    requires v.Dict? && n <= |v.entries| && UniqueKeys(v)
    ensures Distinct(RemovedEntries(v, n))
    decreases v, n
  {
    hide RemovedEntries, EntryReport, Distinct;
    if n == 0 {
      NothingYet(v);
      NoneDistinct();
    } else {
      var last := v.entries[n - 1];
      EntriesDistinct(v, n - 1);
      ReportPush(v, n);
      ReportedOnce(last.value);
      EntryReportFields(last);
      forall p | p in RemovedEntries(v, n - 1) ensures p !in EntryReport(last) {
        if last.key.TextKey? {
          EarlierFields(v, n, p);
        }
      }
      ApartDistinct(RemovedEntries(v, n - 1), EntryReport(last));
    }
  }

  lemma EarlierFields(v: Value, n: nat, p: Position)
    requires v.Dict? && 0 < n <= |v.entries| && UniqueKeys(v) && v.entries[n - 1].key.TextKey?
    requires p in RemovedEntries(v, n - 1)
    ensures p != [] && p[0] != Field(v.entries[n - 1].key.text)
  {
    hide IsProhibitedForReasoning, RemovedEntries, Removed;
    RemovedEntriesAre(v, n - 1, p);
    var i :| 0 <= i < n - 1 && RemovedBelow(v.entries[i], p);
    assert v.entries[i].key != v.entries[n - 1].key;
  }

  lemma OneDistinct(p: Position)
    ensures Distinct([p])
  {}

  lemma {:induction false} ItemsDistinct(v: Value, n: nat)
    requires v.List? && n <= |v.items| && UniqueKeys(v)
    ensures Distinct(RemovedItems(v, n))
    decreases v, n
  {
    if n > 0 {
      hide Removed, Distinct, Below;
      ItemsDistinct(v, n - 1);
      ReportedOnce(v.items[n - 1]);
      var more := Below(Index(n - 1), Removed(v.items[n - 1]));
      BelowDistinct(Index(n - 1), Removed(v.items[n - 1]));
      forall p | p in RemovedItems(v, n - 1) ensures p !in more {
        RemovedItemsAre(v, n - 1, p);
        InBelow(Index(n - 1), Removed(v.items[n - 1]), p);
      }
      ApartDistinct(RemovedItems(v, n - 1), more);
    }
  }

  /** And each of them exactly once. */
  lemma {:induction false} ReportedOnce(v: Value)
    requires UniqueKeys(v)
    ensures Distinct(Removed(v))
    decreases v, Breadth(v) + 1
  {
    match v
    case Enum(x) => ReportedOnce(x);
    case Dict(es) => EntriesDistinct(v, |es|);
    case List(xs, _) => ItemsDistinct(v, |xs|);
    case _ =>
  }

  // ----- rejection first -----

  /** The check before the walk (_reject_runtime_objects): it does not look into members of
      enumerations, and does look below prohibited keys. */
  predicate Accepts(v: Value)
    decreases v
  {
    match v
    case NonFinite => false
    case Runtime => false
    case Dict(es) => forall i :: 0 <= i < |es| ==> es[i].key.TextKey? && Accepts(es[i].value)
    case List(xs, _) => forall i :: 0 <= i < |xs| ==> Accepts(xs[i])
    case _ => true
  }

  /** Outside removed fields, what enumeration members hold can itself be sanitized. */
  predicate MembersSupported(v: Value)
    decreases v
  {
    match v
    case Enum(x) => Sanitizable(x)
    case Dict(es) => forall i :: 0 <= i < |es| ==> Removes(es[i]) || MembersSupported(es[i].value)
    case List(xs, _) => forall i :: 0 <= i < |xs| ==> MembersSupported(xs[i])
    case _ => true
  }

  /** After an accepting check the walk never raises, except inside enumeration members: it
      succeeds exactly when the values of the members it meets are supported. */
  lemma {:induction false} AcceptedSanitizesExactly(v: Value)
    requires Accepts(v)
    ensures Sanitizable(v) <==> MembersSupported(v)
    decreases v
  {
    hide IsProhibitedForReasoning;
    match v
    case Dict(es) =>
      forall i | 0 <= i < |es| ensures Sanitizable(es[i].value) <==> MembersSupported(es[i].value) {
        AcceptedSanitizesExactly(es[i].value);
      }
    case List(xs, _) =>
      forall i | 0 <= i < |xs| ensures Sanitizable(xs[i]) <==> MembersSupported(xs[i]) {
        AcceptedSanitizesExactly(xs[i]);
      }
    case _ =>
  }

  /** An accepted input on which the walk raises: a member whose value is a runtime object. */
  lemma AcceptedCanRaise()
    ensures var v := Dict([Entry(TextKey("constraints"), Dict([Entry(TextKey("mode"), Enum(Runtime))]))]);
            Accepts(v) && UniqueKeys(v) && !Sanitizable(v)
  {
    var mode := Entry(TextKey("mode"), Enum(Runtime));
    var inner := Dict([mode]);
    PlainKeys();
    hide IsProhibitedForReasoning;
    assert inner.entries[0] == mode;
    assert !Sanitizable(inner);
    var v := Dict([Entry(TextKey("constraints"), inner)]);
    assert v.entries[0].value == inner;
  }

  lemma PlainKeys()
    ensures !IsProhibitedForReasoning("mode") && !IsProhibitedForReasoning("constraints")
  {
    LowerCaseKey("mode");
    LowerCaseKey("constraints");
  }

  lemma {:induction false} CollapseLower(s: string)
    requires forall i :: 0 <= i < |s| ==> IsLower(s[i])
    ensures Collapse(s) == s
  {
    if s != [] {
      CollapseLower(s[..|s| - 1]);
      assert s == s[..|s| - 1] + [s[|s| - 1]];
    }
  }

  lemma LowerCaseKey(s: string)
    requires forall i :: 0 <= i < |s| ==> IsLower(s[i])
    ensures NormalizeKey(s) == s
  {
    CollapseLower(s);
  }
}
