/** The truncating accumulator that joins speech fragments into one routed turn. */
module Transcript {

  function Join(parts: seq<string>): string {
    if parts == [] then ""
    else if |parts| == 1 then parts[0]
    else Join(parts[..|parts| - 1]) + " " + parts[|parts| - 1]
  }

  /** One fragment more: cut to the room left after its separator, dropped when there is none. */
  function Append(fragments: seq<string>, max: nat, text: string): seq<string> {
    var separator := if fragments == [] then 0 else 1;
    var used := |Join(fragments)|;
    if max - used <= separator then fragments
    else
      var room := max - used - separator;
      var fragment := if |text| <= room then text else text[..room];
      if fragment == "" then fragments else fragments + [fragment]
  }

  function Accumulate(texts: seq<string>, max: nat): seq<string> {
    if texts == [] then [] else Append(Accumulate(texts[..|texts| - 1], max), max, texts[|texts| - 1])
  }

  predicate NonEmpty(texts: seq<string>) {
    forall i :: 0 <= i < |texts| ==> texts[i] != ""
  }

  /** The last character that fits would be the separator after some fragment. */
  predicate EndsOnSeparator(texts: seq<string>, max: nat) {
    exists i :: 0 < i < |texts| && |Join(texts[..i])| == max - 1
  }

  /** The untruncated join cut to its first `max` characters, or one fewer when that would end on a separator. */
  function Cut(texts: seq<string>, max: nat): string {
    var full := Join(texts);
    if |full| <= max then full
    else if EndsOnSeparator(texts, max) && max >= 1 then full[..max - 1]
    else full[..max]
  }

  /** Each further fragment lengthens the join by its separator and at least one character. */
  lemma {:induction false} JoinGrows(texts: seq<string>, i: nat, j: nat)
    requires NonEmpty(texts) && 0 < i < j <= |texts|
    ensures |Join(texts[..i])| + 2 <= |Join(texts[..j])|
    decreases j
  {
    assert texts[..j][..j - 1] == texts[..j - 1];
    if i < j - 1 {
      JoinGrows(texts, i, j - 1);
    }
  }

  lemma {:induction false} JoinAppend(parts: seq<string>, last: string)
    ensures Join(parts + [last]) == if parts == [] then last else Join(parts) + " " + last
  {
    assert (parts + [last])[..|parts|] == parts;
  }

  /** Where the cut of a longer list ends on a separator: at the new joint, or where it already did. */
  lemma {:induction false} SeparatorGrows(texts: seq<string>, text: string, max: nat)
    ensures EndsOnSeparator(texts + [text], max) <==>
            EndsOnSeparator(texts, max) || (texts != [] && |Join(texts)| == max - 1)
  {
    var longer := texts + [text];
    assert longer[..|texts|] == texts;
    forall i | 0 < i < |texts| ensures longer[..i] == texts[..i] {
    }
    if EndsOnSeparator(texts, max) {
      var i :| 0 < i < |texts| && |Join(texts[..i])| == max - 1;
      assert |Join(longer[..i])| == max - 1;
    }
    if texts != [] && |Join(texts)| == max - 1 {
      assert |Join(longer[..|texts|])| == max - 1;
    }
  }

  lemma {:induction false} NoEarlierSeparator(texts: seq<string>, max: nat)
    requires NonEmpty(texts) && |Join(texts)| <= max
    ensures !EndsOnSeparator(texts, max)
  {
    forall i | 0 < i < |texts| ensures |Join(texts[..i])| != max - 1 {
      JoinGrows(texts, i, |texts|);
      assert texts[..|texts|] == texts;
    }
  }

  /** A further fragment where its separator and something of it still fit. */
  lemma {:induction false} RoomStep(fragments: seq<string>, texts: seq<string>, text: string, max: nat)
    requires text != "" && texts != [] && fragments != []
    requires |Join(texts)| + 1 < max && Join(fragments) == Join(texts)
    ensures Append(fragments, max, text) != []
    ensures
      var full := Join(texts + [text]);
      Join(Append(fragments, max, text)) == if |full| <= max then full else full[..max]
  {
    var room := max - |Join(texts)| - 1;
    var fragment := if |text| <= room then text else text[..room];
    JoinAppend(texts, text);
    JoinAppend(fragments, fragment);
    assert Append(fragments, max, text) == fragments + [fragment];
    if |text| > room {
      assert Join(texts + [text])[..max] == Join(texts) + " " + text[..room];
    }
  }

  /** The step of the theorem while everything so far has fitted. */
  lemma {:induction false} FittingStep(fragments: seq<string>, texts: seq<string>, text: string, max: nat)
    requires max >= 1 && text != "" && NonEmpty(texts) && (fragments == [] <==> texts == [])
    requires |Join(texts)| <= max && Join(fragments) == Join(texts)
    ensures Join(Append(fragments, max, text)) == Cut(texts + [text], max)
    ensures Append(fragments, max, text) != []
  {
    JoinAppend(texts, text);
    SeparatorGrows(texts, text, max);
    NoEarlierSeparator(texts, max);
    if texts == [] {
      JoinAppend(fragments, if |text| <= max then text else text[..max]);
    } else if |Join(texts)| + 1 < max {
      RoomStep(fragments, texts, text, max);
    } else {
      assert Join(texts + [text])[..|Join(texts)|] == Join(texts);
    }
  }

  /** The transcript theorem: what accumulates over any fragments is the untruncated join of all of them, cut to
      the limit, and one character shorter when the cut would end on a separator. */
  lemma {:induction false} TranscriptTheorem(texts: seq<string>, max: nat)
    requires max >= 1 && NonEmpty(texts)
    ensures Join(Accumulate(texts, max)) == Cut(texts, max)
    ensures |Join(Accumulate(texts, max))| <= max
    ensures Accumulate(texts, max) == [] <==> texts == []
  {
    if texts != [] {
      var front, last := texts[..|texts| - 1], texts[|texts| - 1];
      TranscriptTheorem(front, max);
      AnyStep(Accumulate(front, max), front, last, max);
      assert texts == front + [last];
      CutFits(texts, max);
    }
  }

  lemma {:induction false} CutFits(texts: seq<string>, max: nat)
    ensures |Cut(texts, max)| <= max
  {
  }

  lemma {:induction false} AnyStep(fragments: seq<string>, texts: seq<string>, text: string, max: nat)
    requires max >= 1 && text != "" && NonEmpty(texts) && (fragments == [] <==> texts == [])
    requires Join(fragments) == Cut(texts, max)
    ensures Join(Append(fragments, max, text)) == Cut(texts + [text], max)
    ensures Append(fragments, max, text) != []
  {
    if |Join(texts)| <= max {
      FittingStep(fragments, texts, text, max);
    } else {
      FullStep(fragments, texts, text, max);
    }
  }

  /** Once the limit is reached nothing further is taken and the cut no longer moves. */
  lemma {:induction false} FullStep(fragments: seq<string>, texts: seq<string>, text: string, max: nat)
    requires max >= 1 && fragments != [] && |Join(texts)| > max
    requires Join(fragments) == Cut(texts, max)
    ensures Append(fragments, max, text) == fragments
    ensures Cut(texts + [text], max) == Cut(texts, max)
  {
    JoinAppend(texts, text);
    SeparatorGrows(texts, text, max);
    var full, longer := Join(texts), Join(texts + [text]);
    assert texts != [];
    assert longer[..max] == full[..max] && longer[..max - 1] == full[..max - 1];
  }

  class Accumulator {
    const max: nat
    var fragments: seq<string>
    var chars: nat
    ghost var heard: seq<string>

    ghost predicate Valid()
      reads this
    {
      && max >= 1 && NonEmpty(heard)
      && fragments == Accumulate(heard, max)
      && chars == |Join(fragments)| <= max
    }

    constructor (max: nat)
      requires max >= 1
      ensures Valid() && this.max == max && heard == []
    {
      this.max, fragments, chars, heard := max, [], 0, [];
    }

    method AppendFragment(text: string)
      requires chars == |Join(fragments)|
      modifies this`fragments, this`chars
      ensures fragments == Append(old(fragments), max, text) && chars == |Join(fragments)|
    {
      var separator := if fragments == [] then 0 else 1;
      var remaining := max - chars;
      if remaining <= separator {
        return;
      }
      var room := remaining - separator;
      var fragment := if |text| <= room then text else text[..room];
      if fragment != "" {
        JoinAppend(fragments, fragment);
        fragments := fragments + [fragment];
        chars := chars + separator + |fragment|;
      }
    }

    /** One transcription frame, already stripped; an empty one is ignored. */
    method Hear(text: string)
      requires Valid()
      modifies this
      ensures Valid() && heard == if text == "" then old(heard) else old(heard) + [text]
    {
      if text != "" {
        AppendFragment(text);
        heard := heard + [text];
        assert heard[..|heard| - 1] == old(heard);
        TranscriptTheorem(heard, max);
      }
    }

    /** The grace period ran out: the turn is routed and the accumulator cleared. */
    method Complete() returns (text: string)
      requires Valid()
      modifies this
      ensures Valid() && heard == []
      ensures text == Cut(old(heard), max) && |text| <= max
      ensures text == "" <==> old(heard) == []
    {
      TranscriptTheorem(heard, max);
      JoinEmpty(heard);
      text := Join(fragments);
      fragments, chars, heard := [], 0, [];
    }

    /** A cancel or end frame drops what was heard. */
    method Discard()
      requires Valid()
      modifies this
      ensures Valid() && heard == []
    {
      fragments, chars, heard := [], 0, [];
    }
  }

  lemma {:induction false} JoinEmpty(texts: seq<string>)
    requires NonEmpty(texts)
    ensures Join(texts) == "" <==> texts == []
  {
  }
}
