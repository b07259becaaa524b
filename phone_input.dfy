/** The first steps of the lookup form handler (`index` in app.py): trim the
    submitted text, keep only dialling characters, rewrite a leading "00" to
    "+", and choose the region the phone-number parser is given. */
module PhoneInput {
  import opened Wrappers
  import opened Text

  /** The region assumed when the number carries no leading '+'. */
  const DefaultRegion: string := "BD"

  datatype InputError = EmptyInput

  /** What the handler passes to the phone-number parser. */
  datatype Prepared = Prepared(number: string, region: Option<string>)

  predicate IsDialChar(c: char)
  {
    IsDigit(c) || c == '+'
  }

  predicate AllDial(s: string)
  {
    forall i :: 0 <= i < |s| ==> IsDialChar(s[i])
  }

  predicate StartsWithDoubleZero(s: string)
  {
    |s| >= 2 && s[0] == '0' && s[1] == '0'
  }

  predicate StartsWithPlus(s: string)
  {
    |s| >= 1 && s[0] == '+'
  }

  /** The characters of `s` that are digits or '+', in their original order. */
  function KeepDialChars(s: string): (r: string)
    ensures |r| <= |s|
    ensures AllDial(r)
  {
    if s == [] then []
    else (if IsDialChar(s[0]) then [s[0]] else []) + KeepDialChars(s[1..])
  }

  /** Filtering distributes over concatenation: nothing is reordered. */
  lemma {:induction false} KeepDialCharsAppend(a: string, b: string)
    ensures KeepDialChars(a + b) == KeepDialChars(a) + KeepDialChars(b)
  {
    if a != [] {
      assert (a + b)[1..] == a[1..] + b;
      KeepDialCharsAppend(a[1..], b);
    } else {
      assert a + b == b;
    }
  }

  /** Every digit and '+' of the input is kept, as often as it occurs, and
      nothing else is. */
  lemma {:induction false} KeepDialCharsCounts(s: string, c: char)
    ensures multiset(KeepDialChars(s))[c] == if IsDialChar(c) then multiset(s)[c] else 0
  {
    if s != [] {
      KeepDialCharsCounts(s[1..], c);
      assert s == [s[0]] + s[1..];
      assert multiset(s) == multiset([s[0]]) + multiset(s[1..]);
    }
  }

  /** A string of dialling characters only is left as it is. */
  lemma {:induction false} KeepDialCharsFixed(s: string)
    requires AllDial(s)
    ensures KeepDialChars(s) == s
  {
    if s != [] {
      KeepDialCharsFixed(s[1..]);
    }
  }

  /** White space alone yields nothing. */
  lemma {:induction false} KeepDialCharsOfSpace(s: string)
    requires AllSpace(s)
    ensures KeepDialChars(s) == []
  {
    if s != [] {
      KeepDialCharsOfSpace(s[1..]);
    }
  }

  /** Dropping white space from both ends does not change what is kept. */
  lemma KeepDialCharsOfInner(front: string, middle: string, back: string)
    requires AllSpace(front) && AllSpace(back)
    ensures KeepDialChars(front + middle + back) == KeepDialChars(middle)
  {
    KeepDialCharsAppend(front + middle, back);
    KeepDialCharsAppend(front, middle);
    KeepDialCharsOfSpace(front);
    KeepDialCharsOfSpace(back);
  }

  /** Trimming the input first does not change which characters are kept. */
  lemma KeepDialCharsOfStrip(s: string)
    ensures KeepDialChars(Strip(s)) == KeepDialChars(s)
  {
    var a, b := StripBounds(s);
    var front, middle, back := s[..a], s[a..b], s[b..];
    assert s == front + middle + back;
    KeepDialCharsOfInner(front, middle, back);
  }

  /** The normalised number: dialling characters only, with a leading "00"
      rewritten once to '+'. */
  function Normalize(s: string): (r: string)
    ensures AllDial(r)
    ensures !StartsWithDoubleZero(r)
  {
    var kept := KeepDialChars(s);
    if StartsWithDoubleZero(kept) then "+" + kept[2..] else kept
  }

  /** Normalising a normalised number changes nothing: the "00" rewrite
      happens at most once. */
  lemma NormalizeIdempotent(s: string)
    ensures Normalize(Normalize(s)) == Normalize(s)
  {
    KeepDialCharsFixed(Normalize(s));
  }

  /** A number written with the "00" international prefix normalises to its
      '+' form: "0088017..." becomes "+88017...". */
  lemma NormalizeRewritesDoubleZero(rest: string)
    requires AllDial(rest)
    ensures Normalize("00" + rest) == "+" + rest
  {
    var s := "00" + rest;
    assert AllDial(s) by {
      forall i | 0 <= i < |s| ensures IsDialChar(s[i]) {
        if i >= 2 { assert s[i] == rest[i - 2]; }
      }
    }
    KeepDialCharsFixed(s);
    assert s[2..] == rest;
  }

  /** The region handed to the parser: none when the number starts with '+',
      the default region otherwise. */
  function ParseRegion(normalized: string): (r: Option<string>)
    ensures r.None? <==> StartsWithPlus(normalized)
    ensures r.Some? ==> r.value == DefaultRegion
  {
    if StartsWithPlus(normalized) then None else Some(DefaultRegion)
  }

  /** In terms of the raw input: the number is parsed without a region exactly
      when its dialling characters start with '+' or with "00". */
  lemma ParseRegionOfInput(s: string)
    ensures ParseRegion(Normalize(s)).None? <==>
      (StartsWithPlus(KeepDialChars(s)) || StartsWithDoubleZero(KeepDialChars(s)))
  {
  }

  /** Lines 47-61 of the handler: an input that is blank after trimming is
      rejected; otherwise the normalised number and its region are produced. */
  function PrepareInput(raw: string): (r: Result<Prepared, InputError>)
    ensures r.Err? <==> AllSpace(raw)
    ensures r.Ok? ==> r.value.number == Normalize(raw) && r.value.region == ParseRegion(r.value.number)
  {
    var phone := Strip(raw);
    var normalized := Normalize(phone);
    StripEmptyIffAllSpace(raw);
    KeepDialCharsOfStrip(raw);
    if phone == [] then Err(EmptyInput) else Ok(Prepared(normalized, ParseRegion(normalized)))
  }
}
