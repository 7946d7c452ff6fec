/** The library of starter scripts the code editor offers: a fixed table of named templates, each
    in one category, with lookups by category and by name. */
module Templates {
  import opened Options
  import opened Seqs

  /** A template's name, description and category; its code text is not modelled. */
  datatype Template = Template(name: string, description: string, category: string)

  const ScriptTemplates: seq<Template> := [
    Template("Spin Forever", "Makes the object rotate continuously", "Animation"),
    Template("Click to Change Color", "Changes object color when clicked", "Interaction"),
    Template("Move with Arrow Keys", "Control object with arrow keys", "Input"),
    Template("Jump on Spacebar", "Makes object jump when spacebar is pressed", "Input"),
    Template("Hover Effects", "Scale up on hover, scale down on exit", "Interaction"),
    Template("Play Sound on Hit", "Plays a sound when object is clicked", "Audio"),
    Template("Follow Target", "Makes object follow another object", "AI"),
    Template("Oscillating Movement", "Makes object move in a sine wave pattern", "Animation"),
    Template("Health System", "Basic health system with damage handling", "Game Logic"),
    Template("Spawn System", "Spawns objects at regular intervals", "Game Logic"),
    Template("Simple GUI Controls", "Creates GUI elements to control the object", "UI")
  ]

  const ScriptCategories: seq<string> := ["Animation", "Interaction", "Input", "Audio", "AI", "Game Logic", "UI"]

  /** The templates of one category, in table order. */
  function InCategory(ts: seq<Template>, category: string): (r: seq<Template>)
    ensures |r| <= |ts|
    ensures forall t :: t in r <==> t in ts && t.category == category
  {
    if ts == [] then []
    else
      assert ts == [ts[0]] + ts[1..];
      (if ts[0].category == category then [ts[0]] else []) + InCategory(ts[1..], category)
  }

  /** The category filter keeps table order: on a table split in two, it filters each part. */
  lemma {:induction false} InCategoryAppend(a: seq<Template>, b: seq<Template>, category: string)
    ensures InCategory(a + b, category) == InCategory(a, category) + InCategory(b, category)
  {
    if a == [] {
      assert a + b == b;
    } else {
      assert (a + b)[0] == a[0];
      assert (a + b)[1..] == a[1..] + b;
      InCategoryAppend(a[1..], b, category);
    }
  }

  /** A table whose templates all have the category is returned whole, in order. */
  lemma {:induction false} InCategoryAll(ts: seq<Template>, category: string)
    requires forall i :: 0 <= i < |ts| ==> ts[i].category == category
    ensures InCategory(ts, category) == ts
  {
    if ts != [] {
      InCategoryAll(ts[1..], category);
    }
  }

  function TemplatesByCategory(category: string): (r: seq<Template>)
    ensures forall t :: t in r <==> t in ScriptTemplates && t.category == category
  {
    InCategory(ScriptTemplates, category)
  }

  function AllTemplates(): (r: seq<Template>)
    ensures r == ScriptTemplates && |r| == 11
  {
    ScriptTemplates
  }

  /** A table with no template of the category filters to nothing. */
  lemma InCategoryNone(ts: seq<Template>, category: string)
    requires forall t :: t in ts ==> t.category != category
    ensures InCategory(ts, category) == []
  {
    var r := InCategory(ts, category);
    assert forall i :: 0 <= i < |r| ==> r[i] in r;
  }

  lemma NoInputBefore()
    ensures InCategory(ScriptTemplates[..2], "Input") == []
  {
    var ts := ScriptTemplates;
    assert ts[..2] == [ts[0], ts[1]];
    InCategoryNone(ts[..2], "Input");
  }

  lemma InputsTogether()
    ensures InCategory(ScriptTemplates[2..4], "Input") == ScriptTemplates[2..4]
  {
    var ts := ScriptTemplates;
    assert ts[2..4] == [ts[2], ts[3]];
    assert ts[2].category == "Input" && ts[3].category == "Input";
    InCategoryAll(ts[2..4], "Input");
  }

  lemma NoInputAfter()
    ensures InCategory(ScriptTemplates[4..], "Input") == []
  {
    var ts := ScriptTemplates;
    assert ts[4..] == [ts[4], ts[5], ts[6], ts[7], ts[8], ts[9], ts[10]];
    assert ts[4].category != "Input" && ts[5].category != "Input";
    InCategoryNone(ts[4..], "Input");
  }

  lemma SplitThree(ts: seq<Template>, i: nat, j: nat)
    requires i <= j <= |ts|
    ensures ts == (ts[..i] + ts[i..j]) + ts[j..]
  {
    assert ts[..j] == ts[..i] + ts[i..j];
  }

  /** A table whose templates of the category all sit in `ts[i..j]` filters to that run. */
  lemma InCategoryRun(ts: seq<Template>, i: nat, j: nat, category: string)
    requires i <= j <= |ts|
    requires InCategory(ts[..i], category) == [] && InCategory(ts[j..], category) == []
    requires InCategory(ts[i..j], category) == ts[i..j]
    ensures InCategory(ts, category) == ts[i..j]
  {
    var a, b, c := ts[..i], ts[i..j], ts[j..];
    SplitThree(ts, i, j);
    InCategoryAppend(a + b, c, category);
    InCategoryAppend(a, b, category);
    assert InCategory(a + b, category) == [] + b;
    assert InCategory(ts, category) == b + [];
  }

  /** The two input templates come back in table order and nothing else does. */
  lemma InputTemplates()
    ensures TemplatesByCategory("Input") == ScriptTemplates[2..4]
  {
    NoInputBefore();
    InputsTogether();
    NoInputAfter();
    InCategoryRun(ScriptTemplates, 2, 4, "Input");
  }

  /** The first template with the name, if any. */
  function Named(ts: seq<Template>, name: string): (r: Option<Template>)
    ensures r.None? <==> forall i :: 0 <= i < |ts| ==> ts[i].name != name
    ensures r.Some? ==> exists i :: 0 <= i < |ts| && ts[i] == r.value && r.value.name == name
                                    && forall j :: 0 <= j < i ==> ts[j].name != name
  {
    if ts == [] then None
    else if ts[0].name == name then Some(ts[0])
    else
      assert forall j :: 0 <= j < |ts| - 1 ==> ts[1..][j] == ts[j + 1];
      Named(ts[1..], name)
  }

  function TemplateByName(name: string): (r: Option<Template>)
    ensures r.Some? ==> r.value in ScriptTemplates && r.value.name == name
    ensures r.None? <==> forall t :: t in ScriptTemplates ==> t.name != name
  {
    Named(ScriptTemplates, name)
  }

  /** No two templates share a name. */
  lemma NamesDistinct()
    ensures forall i, j :: 0 <= i < j < |ScriptTemplates| ==> ScriptTemplates[i].name != ScriptTemplates[j].name
  {
  }

  /** So a lookup by any listed name finds that very template. */
  lemma LookupByListedName(i: nat)
    requires i < |ScriptTemplates|
    ensures TemplateByName(ScriptTemplates[i].name) == Some(ScriptTemplates[i])
  {
    NamesDistinct();
  }

  /** Every template's category is listed, and no category is listed twice. */
  lemma CategoriesListed()
    ensures Distinct(ScriptCategories)
    ensures forall t :: t in ScriptTemplates ==> t.category in ScriptCategories
  {
  }

  /** How many of the templates the per-category lookups return, over the given categories. */
  function Total(categories: seq<string>, ts: seq<Template>): nat {
    if categories == [] then 0
    else |InCategory(ts, categories[0])| + Total(categories[1..], ts)
  }

  /** How many times `c` is listed. */
  function Occurrences(categories: seq<string>, c: string): nat {
    if categories == [] then 0
    else (if categories[0] == c then 1 else 0) + Occurrences(categories[1..], c)
  }

  /** One more template adds one per listing of its category. */
  lemma {:induction false} TotalCons(categories: seq<string>, t: Template, ts: seq<Template>)
    ensures Total(categories, [t] + ts) == Total(categories, ts) + Occurrences(categories, t.category)
  {
    if categories != [] {
      assert ([t] + ts)[1..] == ts;
      TotalCons(categories[1..], t, ts);
    }
  }

  lemma {:induction false} OccursOnce(categories: seq<string>, c: string)
    requires Distinct(categories) && c in categories
    ensures Occurrences(categories, c) == 1
  {
    var rest := categories[1..];
    assert Distinct(rest) by {
      forall i, j | 0 <= i < j < |rest|
        ensures rest[i] != rest[j]
      {
        assert rest[i] == categories[i + 1] && rest[j] == categories[j + 1];
      }
    }
    if categories[0] == c {
      assert c !in rest by {
        forall j | 0 <= j < |rest|
          ensures rest[j] != c
        {
          assert rest[j] == categories[j + 1];
        }
      }
      OccursNever(rest, c);
    } else {
      assert c in rest by {
        var k :| 0 <= k < |categories| && categories[k] == c;
        assert rest[k - 1] == c;
      }
      OccursOnce(rest, c);
    }
  }

  lemma {:induction false} OccursNever(categories: seq<string>, c: string)
    requires c !in categories
    ensures Occurrences(categories, c) == 0
  {
    if categories != [] {
      assert forall j :: 0 <= j < |categories| - 1 ==> categories[1..][j] == categories[j + 1];
      OccursNever(categories[1..], c);
    }
  }

  lemma {:induction false} TotalEmpty(categories: seq<string>)
    ensures Total(categories, []) == 0
  {
    if categories != [] {
      TotalEmpty(categories[1..]);
    }
  }

  /** Over distinct categories that cover every template, the per-category lookups together
      return each template once. */
  lemma {:induction false} CategoriesPartition(categories: seq<string>, ts: seq<Template>)
    requires Distinct(categories)
    requires forall t :: t in ts ==> t.category in categories
    ensures Total(categories, ts) == |ts|
  {
    if ts == [] {
      TotalEmpty(categories);
    } else {
      assert ts == [ts[0]] + ts[1..];
      TotalCons(categories, ts[0], ts[1..]);
      OccursOnce(categories, ts[0].category);
      CategoriesPartition(categories, ts[1..]);
    }
  }

  /** The listed categories split the library: their lookups together return all eleven. */
  lemma LibraryPartition()
    ensures Total(ScriptCategories, ScriptTemplates) == |ScriptTemplates|
  {
    CategoriesListed();
    CategoriesPartition(ScriptCategories, ScriptTemplates);
  }
}
