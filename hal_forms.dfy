/**
 * The HAL-FORMS document builder `hal(links, templates, extra)`
 * (`packages/web/src/hal_forms.ts`): the object literal `_links`,
 * `_templates` (an empty object when none are given), with the fields of
 * `extra` spread over them. JavaScript lists any array-index keys of
 * `extra` first, so `_links` and `_templates` lead only the other keys.
 */
module HalForms {
  import opened JsValue
  import opened JsString

  /** The names the module exports: the builder and the two identity helpers `tmpl` and `prop`. */
  const Exports: set<string> := {"hal", "tmpl", "prop"}

  /** The object literal `{ _links, _templates }` before the spread. */
  function HalBase(links: Value, templates: Option<Value>): seq<(string, Value)> {
    [("_links", links), ("_templates", templates.GetOr(Obj([])))]
  }

  /** Neither `_links` nor `_templates` is an array index. */
  lemma HalBaseNamed(links: Value, templates: Option<Value>)
    ensures KeyOrdered(HalBase(links, templates)) && Named(HalBase(links, templates)) == HalBase(links, templates)
  {
    var base := HalBase(links, templates);
    NotIndexKey(base[0].0, 0);
    NotIndexKey(base[1].0, 0);
    NoIndexed(base);
  }

  /**
   * `hal(links, templates, extra)`: the document is in JavaScript's own-key
   * order, and among the keys that are not array indices `_links` and
   * `_templates` come first.
   */
  function Hal(links: Value, templates: Option<Value>, extra: Option<seq<(string, Value)>>): (r: Value)
    ensures r.Obj? && KeyOrdered(r.fields)
    ensures var named := Named(r.fields);
            |named| >= 2 && named[0].0 == "_links" && named[1].0 == "_templates"
  {
    var base := HalBase(links, templates);
    HalBaseNamed(links, templates);
    SpreadKeepsOrder(base, extra.GetOr([]));
    SpreadKeepsPrefix(base, extra.GetOr([]));
    Obj(Spread(base, extra.GetOr([])))
  }

  /**
   * The whole layout: the array-index fields of the document, ascending,
   * then `_links`, `_templates` and the other keys of `extra` as an
   * insertion-ordered spread places them.
   */
  lemma HalLayout(links: Value, templates: Option<Value>, extra: Option<seq<(string, Value)>>)
    ensures var f := Hal(links, templates, extra).fields;
            && f == Indexed(f) + Named(f)
            && IndexAscending(Indexed(f))
            && Named(f) == Spread(HalBase(links, templates), Named(extra.GetOr([])))
  {
    var f := Hal(links, templates, extra).fields;
    OrderedLayout(f);
    HalBaseNamed(links, templates);
    SpreadNamed(HalBase(links, templates), extra.GetOr([]));
  }

  /** An array-index key in `extra` goes before `_links`: `hal(links, undefined, { "0": 1 })` lists `"0"` first. */
  lemma IndexKeyLeads(links: Value)
    ensures Hal(links, None, Some([("0", Num(1))])).fields == [("0", Num(1)), ("_links", links), ("_templates", Obj([]))]
  {
    var base := HalBase(links, None);
    var zero := "0";
    assert ParseDigits(zero) == 0 by {
      assert zero[..0] == [];
    }
    assert NatToString(0) == zero;
    assert IsIndexKey(zero);
    HalBaseNamed(links, None);
    assert !IndexBefore(base[0].0, zero);
    assert FieldGet(base, zero).None?;
    assert InsertIndex(base, zero, Num(1)) == [(zero, Num(1))] + base;
    assert Spread(base, [(zero, Num(1))]) == FieldSet(base, zero, Num(1));
  }

  /**
   * Every field of the document: `extra` wins on the keys it has, `_links` and
   * `_templates` come from the arguments otherwise, and no other key exists.
   */
  lemma HalFields(links: Value, templates: Option<Value>, extra: Option<seq<(string, Value)>>, k: string)
    requires DistinctKeys(extra.GetOr([]))
    ensures var x := FieldGet(extra.GetOr([]), k);
            FieldGet(Hal(links, templates, extra).fields, k) ==
              if x.Some? then x
              else if k == "_links" then Some(links)
              else if k == "_templates" then Some(templates.GetOr(Obj([])))
              else None
  {
    SpreadGet(HalBase(links, templates), extra.GetOr([]), k);
  }

  /** Without `extra`, the document is exactly `{ _links, _templates }`. */
  lemma HalWithoutExtra(links: Value, templates: Option<Value>)
    ensures Hal(links, templates, None) == Obj([("_links", links), ("_templates", templates.GetOr(Obj([])))])
  {
  }
}
