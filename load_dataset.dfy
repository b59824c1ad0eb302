/** The per-line cleaning of `generate_actions` in `backend/load_dataset.py`:
    skip blank lines, normalise `year`, drop the junk fields, and wrap each
    document in a bulk-index action for the `songs` index. */
module Dataset {
  import opened Wrappers
  import opened JsonValue
  import opened Text

  const IndexName := "songs"

  /** The keys removed from every document. */
  const JunkKeys: seq<string> := ["lyrics_clean", "lyrics_clean.keyword", "features.keyword", "year.keyword"]

  /** One line of the dataset file: its text, and what `json.loads` makes
      of its stripped text (meaningful only when the line is not blank).
      A non-blank line that `json.loads` rejects aborts generation just as
      a line that decodes to a non-dict does; such a line is given here as
      any non-dict `decoded` value. */
  datatype Line = Line(text: string, decoded: Value)

  /** What `generate_actions` yields. */
  datatype Action = Action(index: string, source: Doc)

  /** Python's `int(val)` on a decoded value: ints are kept, booleans give
      0 or 1, floats are truncated toward zero, strings are parsed; any
      other value is a `TypeError`, here `None`. */
  function ToInt(v: Value): (r: Option<int>)
    ensures v.Int? ==> r == Some(v.i)
    ensures v.Bool? ==> r == Some(if v.b then 1 else 0)
    ensures v.Float? ==> r.Some?
    ensures v.Float? && v.f >= 0.0 ==> 0 <= r.value && (r.value as real) <= v.f < (r.value as real) + 1.0
    ensures v.Float? && v.f < 0.0 ==> r.value <= 0 && (r.value as real) - 1.0 < v.f <= (r.value as real)
    ensures v.Str? ==> r == ParseInt(v.s)
    ensures v.Null? || v.List? || v.Object? ==> r == None
  {
    match v
    case Int(i) => Some(i)
    case Bool(b) => Some(if b then 1 else 0)
    case Float(f) => Some(if f >= 0.0 then f.Floor else -((-f).Floor))
    case Str(s) => ParseInt(s)
    case _ => None
  }

  /** The new value of a truthy `year`: the first element of a list, or
      the value itself, converted to an int; `None` when that fails. */
  function CleanYear(year: Value): (r: Value)
    requires Truthy(year)
    ensures r.Int? || r.Null?
    ensures year.List? ==> (r.Int? <==> ToInt(year.items[0]).Some?)
    ensures !year.List? ==> (r.Int? <==> ToInt(year).Some?)
    ensures r.Int? ==> ToInt(if year.List? then year.items[0] else year) == Some(r.i)
  {
    var val := if year.List? then year.items[0] else year;
    match ToInt(val)
    case Some(n) => Int(n)
    case None => Null
  }

  /** The document a decoded line becomes: `year` normalised when present
      and truthy, the junk keys gone, every other key as it was. */
  function CleanDoc(doc: Doc): (cleaned: Doc)
    ensures forall k :: k in JunkKeys ==> k !in cleaned
    ensures forall k :: k !in JunkKeys ==> (k in cleaned <==> k in doc)
    ensures forall k :: k in doc && k !in JunkKeys && k != "year" ==> cleaned[k] == doc[k]
    ensures "year" in doc && Truthy(doc["year"]) ==> cleaned["year"] == CleanYear(doc["year"])
    ensures "year" in doc && !Truthy(doc["year"]) ==> cleaned["year"] == doc["year"]
  {
    var normalised :=
      if "year" in doc && Truthy(doc["year"]) then doc["year" := CleanYear(doc["year"])] else doc;
    map k | k in normalised && k !in JunkKeys :: normalised[k]
  }

  /** The body of the loop of `generate_actions` for one decoded document:
      the year conversion, then one `pop` per junk key. */
  method CleanDocument(doc: Doc) returns (cleaned: Doc)
    ensures cleaned == CleanDoc(doc)
  {
    cleaned := doc;
    if "year" in cleaned && Truthy(cleaned["year"]) {
      var year := cleaned["year"];
      var val := if year.List? then year.items[0] else year;
      var n := ToInt(val);
      if n.Some? {
        cleaned := cleaned["year" := Int(n.value)];
      } else {
        // the ValueError or TypeError is caught and the year set to None
        cleaned := cleaned["year" := Null];
      }
    }
    assert cleaned == if "year" in doc && Truthy(doc["year"]) then doc["year" := CleanYear(doc["year"])] else doc;
    ghost var normalised := cleaned;
    var i := 0;
    while i < |JunkKeys|
      invariant 0 <= i <= |JunkKeys|
      invariant forall k :: k in cleaned <==> k in normalised && k !in JunkKeys[..i]
      invariant forall k :: k in cleaned ==> cleaned[k] == normalised[k]
    {
      cleaned := cleaned - {JunkKeys[i]};
      assert JunkKeys[..i + 1] == JunkKeys[..i] + [JunkKeys[i]];
      i := i + 1;
    }
    assert JunkKeys[..i] == JunkKeys;
  }

  /** The decoded values of the non-blank lines, in file order. */
  function Documents(lines: seq<Line>): (docs: seq<Value>)
    ensures |docs| <= |lines|
  {
    if lines == [] then []
    else
      var last := lines[|lines| - 1];
      Documents(lines[..|lines| - 1]) + (if IsBlank(last.text) then [] else [last.decoded])
  }

  /** With no blank line, every line gives its document, in order. */
  lemma {:induction false} DocumentsNoBlank(lines: seq<Line>)
    requires forall j :: 0 <= j < |lines| ==> !IsBlank(lines[j].text)
    ensures |Documents(lines)| == |lines|
    ensures forall j :: 0 <= j < |lines| ==> Documents(lines)[j] == lines[j].decoded
  {
    if lines != [] {
      var init := lines[..|lines| - 1];
      var last := lines[|lines| - 1];
      assert forall j :: 0 <= j < |init| ==> init[j] == lines[j];
      DocumentsNoBlank(init);
      var d := Documents(init);
      assert !IsBlank(last.text);
      assert Documents(lines) == d + [last.decoded];
      forall j | 0 <= j < |lines| ensures Documents(lines)[j] == lines[j].decoded {
        if j < |init| {
          assert Documents(lines)[j] == d[j];
        }
      }
    }
  }

  /** A file of blank lines gives no document. */
  lemma {:induction false} DocumentsAllBlank(lines: seq<Line>)
    requires forall j :: 0 <= j < |lines| ==> IsBlank(lines[j].text)
    ensures Documents(lines) == []
  {
    if lines != [] {
      var init := lines[..|lines| - 1];
      assert forall j :: 0 <= j < |init| ==> init[j] == lines[j];
      DocumentsAllBlank(init);
    }
  }

  /** Every document is the decoded value of some non-blank line. */
  lemma {:induction false} DocumentsFromLines(lines: seq<Line>, k: nat)
    requires k < |Documents(lines)|
    ensures exists j :: 0 <= j < |lines| && !IsBlank(lines[j].text) && lines[j].decoded == Documents(lines)[k]
  {
    var init := lines[..|lines| - 1];
    var last := lines[|lines| - 1];
    if k < |Documents(init)| {
      DocumentsFromLines(init, k);
      var j :| 0 <= j < |init| && !IsBlank(init[j].text) && init[j].decoded == Documents(init)[k];
      assert lines[j] == init[j];
    } else {
      assert !IsBlank(last.text) && Documents(lines)[k] == last.decoded;
    }
  }

  /** `generate_actions()` as far as it gets: one action per non-blank
      line, in order, each targeting `songs` with the cleaned document.
      A line that decodes to something other than a dict makes the loop
      body raise; the actions before it have been yielded and `aborted`
      is set. */
  method GenerateActions(lines: seq<Line>) returns (actions: seq<Action>, aborted: bool)
    ensures |actions| <= |Documents(lines)|
    ensures forall j :: 0 <= j < |actions| ==>
      Documents(lines)[j].Object? && actions[j] == Action(IndexName, CleanDoc(Documents(lines)[j].fields))
    ensures aborted <==> |actions| < |Documents(lines)|
    ensures aborted ==> !Documents(lines)[|actions|].Object?
  {
    actions := [];
    aborted := false;
    var i := 0;
    while i < |lines|
      invariant 0 <= i <= |lines|
      invariant |Documents(lines[..i])| <= |Documents(lines)|
      invariant Documents(lines[..i]) == Documents(lines)[..|Documents(lines[..i])|]
      invariant |actions| == |Documents(lines[..i])|
      invariant forall j :: 0 <= j < |actions| ==>
        Documents(lines[..i])[j].Object? && actions[j] == Action(IndexName, CleanDoc(Documents(lines[..i])[j].fields))
    {
      DocumentsPrefix(lines, i);
      var line := lines[i];
      assert lines[..i + 1][..i] == lines[..i];
      if !IsBlank(line.text) {
        var doc := line.decoded;
        if !doc.Object? {
          // `"year" in doc` or `doc.pop` raises TypeError or AttributeError
          aborted := true;
          return;
        }
        var cleaned := CleanDocument(doc.fields);
        actions := actions + [Action(IndexName, cleaned)];
      }
      i := i + 1;
    }
    assert lines[..i] == lines;
  }

  /** The documents of a prefix, extended by one line. */
  lemma DocumentsPrefix(lines: seq<Line>, i: nat)
    requires i < |lines|
    ensures Documents(lines[..i + 1]) ==
      Documents(lines[..i]) + (if IsBlank(lines[i].text) then [] else [lines[i].decoded])
    ensures |Documents(lines[..i + 1])| <= |Documents(lines)|
    ensures Documents(lines[..i + 1]) == Documents(lines)[..|Documents(lines[..i + 1])|]
  {
    assert lines[..i + 1][..i] == lines[..i];
    DocumentsOfPrefix(lines, i + 1);
  }

  lemma {:induction false} DocumentsOfPrefix(lines: seq<Line>, n: nat)
    requires n <= |lines|
    ensures |Documents(lines[..n])| <= |Documents(lines)|
    ensures Documents(lines[..n]) == Documents(lines)[..|Documents(lines[..n])|]
    decreases |lines| - n
  {
    if n == |lines| {
      assert lines[..n] == lines;
    } else {
      DocumentsOfPrefix(lines, n + 1);
      assert lines[..n + 1][..n] == lines[..n];
    }
  }

  /** Documents of two pieces of a file laid end to end. */
  lemma {:induction false} DocumentsAppend(a: seq<Line>, b: seq<Line>)
    ensures Documents(a + b) == Documents(a) + Documents(b)
    decreases |b|
  {
    if b == [] {
      assert a + b == a;
    } else {
      var b' := b[..|b| - 1];
      assert (a + b)[..|a + b| - 1] == a + b';
      DocumentsAppend(a, b');
    }
  }

  /** A blank line anywhere in the file produces no action: the file yields
      the same documents with or without it. */
  lemma BlankLineIgnored(a: seq<Line>, blank: Line, b: seq<Line>)
    requires IsBlank(blank.text)
    ensures Documents(a + [blank] + b) == Documents(a + b)
  {
    DocumentsAppend(a + [blank], b);
    DocumentsAppend(a, b);
    DocumentsAppend(a, [blank]);
    assert Documents([blank]) == [] by {
      assert [blank][..0] == [];
    }
  }

  // ----- the year cases -----

  /** A year given as a list, such as `["2020"]`, is converted from its
      first element. */
  lemma YearFromList(items: seq<Value>, n: int)
    requires items != [] && items[0] == Str(IntToString(n))
    ensures CleanYear(List(items)) == Int(n)
  {
    ParseIntOfIntToString(n);
  }

  /** A year string such as `"2020"` becomes the int it spells. */
  lemma YearFromString(n: int)
    ensures Truthy(Str(IntToString(n)))
    ensures CleanYear(Str(IntToString(n))) == Int(n)
  {
    ParseIntOfIntToString(n);
  }

  /** A year that cannot be converted (a string that is no number, or a
      list whose first element is no number) becomes `None`, and the other
      keys are still cleaned as usual. */
  lemma UnusableYearBecomesNone(doc: Doc)
    requires "year" in doc && Truthy(doc["year"])
    requires var y := doc["year"]; ToInt(if y.List? then y.items[0] else y).None?
    ensures CleanDoc(doc)["year"] == Null
  {
  }
}
