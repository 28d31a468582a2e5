/** What a dotted path finds, one component at a time. */
module DottedReads {
  import opened Wrappers
  import opened Json
  import opened Strings
  import opened Dotted
  import opened JsonPointer

  lemma {:induction false} WalkAppend(v: Json, p: seq<string>, q: seq<string>)
    ensures Walk(v, p + q) == if Walk(v, p).None? then None else Walk(Walk(v, p).value, q)
    decreases |p|
  {
    if p == [] {
      assert p + q == q;
    } else {
      assert (p + q)[1..] == p[1..] + q;
      var child := Child(v, p[0]);
      if child.Some? {
        WalkAppend(child.value, p[1..], q);
      }
    }
  }

  lemma WalkOne(v: Json, component: string)
    ensures Walk(v, [component]) == Child(v, component)
  {
    assert [component][1..] == [];
  }

  /** The path of a value found at `path`, one component further. */
  function Below(path: string, component: string): string {
    if path == "" then component else path + "." + component
  }

  /** Reading one component further is reading that component alone in the value found. */
  lemma ReadsBelow(v: Json, path: string, component: string)
    requires component != "" && '.' !in component
    ensures Below(path, component) != ""
    ensures DottedGet(v, Below(path, component))
            == if DottedGet(v, path).None? then None else Child(DottedGet(v, path).value, component)
  {
    SplitWhole(component, '.');
    if path == "" {
      WalkOne(v, component);
    } else {
      SplitAppend(path, '.', component);
      assert path + "." + component == path + ['.'] + component;
      WalkAppend(v, Split(path, '.'), [component]);
      if DottedGet(v, path).Some? {
        WalkOne(DottedGet(v, path).value, component);
      }
    }
  }

  lemma DigitsHaveNoDot(s: string)
    requires IsDigits(s)
    ensures s != "" && '.' !in s
  {
  }

  /** A list is read at the decimal text of a position, from the front; past its end nothing is read. */
  lemma ListReads(v: Json, path: string, items: seq<Json>, i: nat)
    requires DottedGet(v, path) == Some(List(items))
    ensures DottedGet(v, Below(path, Decimal(i))) == if i < |items| then Some(items[i]) else None
  {
    DecimalRoundTrip(i);
    DigitsHaveNoDot(Decimal(i));
    ReadsBelow(v, path, Decimal(i));
  }

  lemma {:induction false} LeadingZeros(zeros: string, digits: string)
    requires forall i :: 0 <= i < |zeros| ==> zeros[i] == '0'
    requires IsDigits(digits)
    ensures IsDigits(zeros + digits) && ParseDigits(zeros + digits) == ParseDigits(digits)
    decreases |digits|
  {
    var front := digits[..|digits| - 1];
    assert (zeros + digits)[..|zeros + digits| - 1] == zeros + front;
    if front != [] {
      LeadingZeros(zeros, front);
    } else {
      assert zeros + front == zeros;
      ZerosAreZero(zeros);
    }
  }

  lemma {:induction false} ZerosAreZero(zeros: string)
    requires forall i :: 0 <= i < |zeros| ==> zeros[i] == '0'
    ensures ParseDigits(zeros) == 0
  {
    if zeros != [] {
      ZerosAreZero(zeros[..|zeros| - 1]);
    }
  }

  /** Leading zeros do not matter in a list, unlike in a pointer. */
  lemma LeadingZerosRead(v: Json, path: string, items: seq<Json>, zeros: string, i: nat)
    requires DottedGet(v, path) == Some(List(items)) && i < |items|
    requires forall k :: 0 <= k < |zeros| ==> zeros[k] == '0'
    ensures DottedGet(v, Below(path, zeros + Decimal(i))) == Some(items[i])
  {
    DecimalRoundTrip(i);
    LeadingZeros(zeros, Decimal(i));
    DigitsHaveNoDot(zeros + Decimal(i));
    ReadsBelow(v, path, zeros + Decimal(i));
  }

  /** Some character is no digit. */
  predicate NotAllDigits(component: string) {
    exists k :: 0 <= k < |component| && !('0' <= component[k] <= '9')
  }

  /** What is not all digits reads nothing from a list. */
  lemma NoListRead(v: Json, path: string, items: seq<Json>, component: string)
    requires DottedGet(v, path) == Some(List(items)) && '.' !in component && NotAllDigits(component)
    ensures DottedGet(v, Below(path, component)).None?
  {
    ReadsBelow(v, path, component);
  }

  /** A mapping is read at its keys and nowhere else. */
  lemma MappingReads(v: Json, path: string, fields: Fields, key: string)
    requires DottedGet(v, path) == Some(Map(fields)) && key != "" && '.' !in key
    ensures DottedGet(v, Below(path, key)) == if key in fields then Some(fields[key]) else None
  {
    ReadsBelow(v, path, key);
  }

  /** Nothing lies below what was not found, or below a value that is neither a mapping nor a list. */
  lemma NothingBelow(v: Json, path: string, component: string)
    requires component != "" && '.' !in component
    requires DottedGet(v, path).None? || (!DottedGet(v, path).value.Map? && !DottedGet(v, path).value.List?)
    ensures DottedGet(v, Below(path, component)).None?
  {
    ReadsBelow(v, path, component);
  }

  /** The empty path reads the whole value. */
  lemma WholeRead(v: Json)
    ensures DottedGet(v, "") == Some(v)
  {
  }

  /** After a path that is not empty, the empty component reads the empty key of a mapping only. */
  lemma EmptyComponentReads(v: Json, path: string)
    requires path != ""
    ensures DottedGet(v, path + ".") == match DottedGet(v, path)
                                        case Some(Map(fields)) => if "" in fields then Some(fields[""]) else None
                                        case _ => None
  {
    SplitAppend(path, '.', "");
    assert path + "." == path + ['.'] + "";
    WalkAppend(v, Split(path, '.'), [""]);
    if DottedGet(v, path).Some? {
      WalkOne(DottedGet(v, path).value, "");
    }
  }
}
