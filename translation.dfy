/**
 * The lookup loop of `changeLanguage`: every element tagged with a
 * `data-translate` key gets the active language's text for that key, when the
 * table has one that is not empty.
 */
module Translation {
  import opened Wrappers

  /** The `translations` object: language code to a flat key-to-text table. */
  type Table = map<string, map<string, string>>

  /** An element carrying a `data-translate` key, with its displayed text. */
  datatype Element = Element(key: string, text: string)

  /** `translations[lang] && translations[lang][key]`: the text to show, when it is truthy. */
  function Lookup(table: Table, lang: string, key: string): (r: Option<string>)
    ensures r.Some? <==> lang in table && key in table[lang] && table[lang][key] != ""
    ensures r.Some? ==> r.value == table[lang][key]
  {
    if lang in table && key in table[lang] && table[lang][key] != "" then Some(table[lang][key])
    else None
  }

  /** One element after the loop body ran on it. */
  function Translate(table: Table, lang: string, e: Element): (r: Element)
    ensures r.key == e.key
    ensures Lookup(table, lang, e.key).None? ==> r == e
    ensures Lookup(table, lang, e.key).Some? ==> r.text == table[lang][e.key]
    ensures r.text != e.text ==> lang in table && e.key in table[lang] && r.text == table[lang][e.key] != ""
  {
    match Lookup(table, lang, e.key)
    case Some(text) => e.(text := text)
    case None => e
  }

  /** The elements after the whole loop ran. */
  function TranslateAll(table: Table, lang: string, elements: seq<Element>): (r: seq<Element>)
    ensures |r| == |elements|
    ensures forall i :: 0 <= i < |r| ==> r[i].key == elements[i].key
    ensures forall i :: 0 <= i < |r| ==>
      r[i].text == if Lookup(table, lang, elements[i].key).Some? then table[lang][elements[i].key] else elements[i].text
  {
    seq(|elements|, i requires 0 <= i < |elements| => Translate(table, lang, elements[i]))
  }

  /** The forEach over the tagged elements, updating each one's text in place. */
  method ChangeLanguage(table: Table, lang: string, elements: array<Element>)
    modifies elements
    ensures elements[..] == TranslateAll(table, lang, old(elements[..]))
  {
    var i := 0;
    while i < elements.Length
      invariant 0 <= i <= elements.Length
      invariant forall k :: 0 <= k < i ==> elements[k] == Translate(table, lang, old(elements[k]))
      invariant forall k :: i <= k < elements.Length ==> elements[k] == old(elements[k])
    {
      var key := elements[i].key;
      if lang in table && key in table[lang] && table[lang][key] != "" {
        elements[i] := elements[i].(text := table[lang][key]);
      }
      i := i + 1;
    }
  }

  /** A language missing from the table leaves every element as it was. */
  lemma UnknownLanguageChangesNothing(table: Table, lang: string, elements: seq<Element>)
    requires lang !in table
    ensures TranslateAll(table, lang, elements) == elements
  {
  }

  /** Switching to the same language twice is the same as switching once. */
  lemma SwitchIdempotent(table: Table, lang: string, elements: seq<Element>)
    ensures TranslateAll(table, lang, TranslateAll(table, lang, elements)) == TranslateAll(table, lang, elements)
  {
  }

  /**
   * After switching to `a` and then to `b`, an element shows `b`'s text where
   * `b` has one, and otherwise whatever switching to `a` alone left there.
   */
  lemma LaterLanguageWins(table: Table, a: string, b: string, elements: seq<Element>)
    ensures var twice := TranslateAll(table, b, TranslateAll(table, a, elements));
      forall i :: 0 <= i < |elements| ==>
        twice[i] == if Lookup(table, b, elements[i].key).Some?
                    then TranslateAll(table, b, elements)[i]
                    else TranslateAll(table, a, elements)[i]
  {
  }
}
