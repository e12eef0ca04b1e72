/** What the report of a sanitizing walk says (pmqa/reasoning/scrubber.py, _sanitize): how the
    positions are written, and which redactions and rules it lists. */
module ScrubberReport {
  import opened Wrappers
  import opened Boundary
  import opened ReasoningScrubber
  import Decimals

  /** A path grows at its end by a dotted key or a bracketed index; only the first key stands
      without a dot. */
  lemma {:induction false} PathGrows(path: string, p: Position, step: PathStep)
    ensures var t := PathText(path, p);
            match step
            case Field(key) => PathText(path, p + [step]) == (if t == "" then key else t + "." + key)
            case Index(i) => PathText(path, p + [step]) == t + "[" + Decimals.Digits(i) + "]"
    decreases p
  {
    if p == [] {
      assert (p + [step])[1..] == [];
    } else {
      PathGrows(Extend(path, p[0]), p[1..], step);
      assert (p + [step])[1..] == p[1..] + [step];
    }
  }

  /** At this position, below no prohibited field, there is a string the redactor applies the
      rule to. */
  predicate Triggers(v: Value, p: Position, redact: Redactor, rule: string) {
    Kept(p) && At(v, p).Some? && At(v, p).value.Text? && rule in redact(At(v, p).value.s).1
  }

  /** Such a position, written as the report writes it: the root is called "input". */
  predicate Explains(v: Value, path: string, redact: Redactor, x: Redaction, p: Position) {
    && Triggers(v, p, redact, x.rule)
    && x.path == (if PathText(path, p) == "" then "input" else PathText(path, p))
  }

  predicate InEntry(e: Entry, path: string, redact: Redactor, x: Redaction) {
    e.key.TextKey? && !Removes(e) && x in Redactions(e.value, Extend(path, Field(e.key.text)), redact)
  }

  predicate InItem(v: Value, path: string, redact: Redactor, x: Redaction, i: nat)
    requires v.List?
  {
    i < |v.items| && x in Redactions(v.items[i], Extend(path, Index(i)), redact)
  }

  lemma {:induction false} EntryRedactionsAre(v: Value, n: nat, path: string, redact: Redactor, x: Redaction)
    requires v.Dict? && n <= |v.entries|
    ensures x in EntryRedactions(v, n, path, redact) <==>
              exists i :: 0 <= i < n && InEntry(v.entries[i], path, redact, x)
    decreases n
  {
    hide Redactions, IsProhibitedForReasoning, Extend;
    if n > 0 {
      EntryRedactionsAre(v, n - 1, path, redact, x);
    }
  }

  lemma {:induction false} ItemRedactionsAre(v: Value, n: nat, path: string, redact: Redactor, x: Redaction)
    requires v.List? && n <= |v.items|
    ensures x in ItemRedactions(v, n, path, redact) <==> exists i :: 0 <= i < n && InItem(v, path, redact, x, i)
    decreases n
  {
    hide Redactions, Extend;
    if n > 0 {
      ItemRedactionsAre(v, n - 1, path, redact, x);
      assert ItemRedactions(v, n, path, redact)
          == ItemRedactions(v, n - 1, path, redact) + Redactions(v.items[n - 1], Extend(path, Index(n - 1)), redact);
      assert InItem(v, path, redact, x, n - 1)
        <==> x in Redactions(v.items[n - 1], Extend(path, Index(n - 1)), redact);
    }
  }

  /** Every redaction the walk reports has such a position. */
  lemma {:induction false} RedactionExplained(v: Value, path: string, redact: Redactor, x: Redaction)
    returns (p: Position)
    requires UniqueKeys(v) && x in Redactions(v, path, redact)
    ensures Explains(v, path, redact, x, p)
    decreases v
  {
    match v
    case Text(s) =>
      p := [];
    case Enum(y) =>
      p := RedactionExplained(y, path, redact, x);
    case Dict(es) =>
      EntryRedactionsAre(v, |es|, path, redact, x);
      var i :| 0 <= i < |es| && InEntry(es[i], path, redact, x);
      var q := RedactionExplained(es[i].value, Extend(path, Field(es[i].key.text)), redact, x);
      p := [Field(es[i].key.text)] + q;
      FieldExplains(v, path, redact, x, i, q);
    case List(xs, _) =>
      ItemRedactionsAre(v, |xs|, path, redact, x);
      var i :| 0 <= i < |xs| && InItem(v, path, redact, x, i);
      var q := RedactionExplained(xs[i], Extend(path, Index(i)), redact, x);
      p := [Index(i)] + q;
      ItemExplains(v, path, redact, x, i, q);
    case _ =>
      assert false;
  }

  lemma FieldExplains(v: Value, path: string, redact: Redactor, x: Redaction, i: nat, q: Position)
    requires v.Dict? && UniqueKeys(v) && i < |v.entries| && v.entries[i].key.TextKey? && !Removes(v.entries[i])
    ensures var step := Field(v.entries[i].key.text);
            Explains(v, path, redact, x, [step] + q) <==>
              Explains(v.entries[i].value, Extend(path, step), redact, x, q)
  {
    hide IsProhibitedForReasoning, Redactions, Extend;
    var p := [Field(v.entries[i].key.text)] + q;
    assert p[1..] == q;
    KeptTail(p);
    FindUnique(v.entries, i);
  }

  lemma ItemExplains(v: Value, path: string, redact: Redactor, x: Redaction, i: nat, q: Position)
    requires v.List? && i < |v.items|
    ensures Explains(v, path, redact, x, [Index(i)] + q) <==>
              Explains(v.items[i], Extend(path, Index(i)), redact, x, q)
  {
    hide IsProhibitedForReasoning, Redactions, Extend;
    var p := [Index(i)] + q;
    assert p[1..] == q;
    KeptTail(p);
  }

  /** And every such position is reported. */
  lemma {:induction false} ExplainedIsReported(v: Value, path: string, redact: Redactor, x: Redaction, p: Position)
    requires UniqueKeys(v) && Explains(v, path, redact, x, p)
    ensures x in Redactions(v, path, redact)
    decreases v
  {
    match v
    case Text(s) =>
      assert p == [];
      var i :| 0 <= i < |redact(s).1| && redact(s).1[i] == x.rule;
      assert Hits(DisplayPath(path), redact(s).1)[i] == x;
    case Enum(y) =>
      assert Explains(y, path, redact, x, p);
      ExplainedIsReported(y, path, redact, x, p);
    case Dict(es) =>
      assert p != [] && p[0].Field?;
      var i := FindMember(es, p[0].key);
      assert p == [p[0]] + p[1..];
      KeptTail(p);
      FieldExplains(v, path, redact, x, i, p[1..]);
      ExplainedIsReported(es[i].value, Extend(path, p[0]), redact, x, p[1..]);
      assert InEntry(es[i], path, redact, x);
      EntryRedactionsAre(v, |es|, path, redact, x);
    case List(xs, _) =>
      assert p != [] && p[0].Index?;
      var i := p[0].i;
      assert p == [p[0]] + p[1..];
      ItemExplains(v, path, redact, x, i, p[1..]);
      ExplainedIsReported(xs[i], Extend(path, p[0]), redact, x, p[1..]);
      assert InItem(v, path, redact, x, i);
      ItemRedactionsAre(v, |xs|, path, redact, x);
    case _ =>
  }

  /** The redactions a walk reports are exactly those some surviving string explains. */
  lemma RedactsExactly(v: Value, path: string, redact: Redactor, x: Redaction)
    requires UniqueKeys(v)
    ensures x in Redactions(v, path, redact) <==> exists p :: Explains(v, path, redact, x, p)
  {
    hide Redactions, Explains;
    if x in Redactions(v, path, redact) {
      var p := RedactionExplained(v, path, redact, x);
    }
    if p :| Explains(v, path, redact, x, p) {
      ExplainedIsReported(v, path, redact, x, p);
    }
  }

  /** The rules a walk reports: the removal rule exactly when it meets a prohibited field, and
      otherwise those some surviving string triggers. */
  lemma RulesMean(v: Value, redact: Redactor, rule: string)
    requires UniqueKeys(v)
    ensures rule in RulesOf(PathTexts("", Removed(v)), Redactions(v, "", redact)) <==>
              || (rule == "prohibited-key-removal" && exists p :: Topmost(v, p))
              || exists p :: Triggers(v, p, redact, rule)
  {
    hide Redactions, Removed, Topmost, Triggers, PathText;
    var found, removed := Redactions(v, "", redact), Removed(v);
    if removed != [] {
      ReportsExactly(v, removed[0]);
    }
    if p :| Topmost(v, p) {
      ReportsExactly(v, p);
    }
    if x :| x in found && x.rule == rule {
      var p := RedactionExplained(v, "", redact, x);
    }
    if p :| Triggers(v, p, redact, rule) {
      var x := Redaction(if PathText("", p) == "" then "input" else PathText("", p), rule);
      ExplainedIsReported(v, "", redact, x, p);
    }
  }
}
