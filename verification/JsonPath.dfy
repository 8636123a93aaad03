/** The runner's JSON path walker, and the two text helpers its steps use. */
module JsonPath {
  import opened Wrappers
  import opened JsText

  /** A value a path can meet; text is UTF-16 code units.  `Other` is anything found on
      a prototype, such as a function. */
  datatype Json =
    | Undefined
    | Null
    | Bool(b: bool)
    | Num(n: real)
    | Str(units: seq<bv16>)
    | Arr(items: seq<Json>)
    | Obj(fields: map<string, Json>)
    | Other(tag: string)

  /** What the prototype chain answers for a property a value does not have itself. */
  type Prototypes = (Json, string) -> Json

  predicate Nullish(v: Json) {
    v.Undefined? || v.Null?
  }

  // ----- Text -----

  predicate IsWord(c: char) {
    IsDigit(c) || 'a' <= c <= 'z' || 'A' <= c <= 'Z' || c == '_'
  }

  predicate AllWord(s: string) {
    s != "" && forall i :: 0 <= i < |s| ==> IsWord(s[i])
  }

  /** `split('.')`: never empty. */
  function Split(s: string): (parts: seq<string>)
    ensures parts != []
  {
    if s == "" then [""]
    else
      var rest := Split(s[1..]);
      if s[0] == '.' then [""] + rest else [[s[0]] + rest[0]] + rest[1..]
  }

  function IndexOf(s: string, c: char): (i: nat)
    ensures i <= |s| && (i < |s| ==> s[i] == c) && forall j :: 0 <= j < i ==> s[j] != c
  {
    if s == "" || s[0] == c then 0 else 1 + IndexOf(s[1..], c)
  }

  /** The pattern of "items[0]": a word, and digits in brackets. */
  function MatchIndexed(part: string): Option<(string, string)> {
    var i := IndexOf(part, '[');
    if i + 2 <= |part| && part[|part| - 1] == ']' && AllWord(part[..i]) && AllDigits(part[i + 1..|part| - 1])
    then Some((part[..i], part[i + 1..|part| - 1])) else None
  }

  /** Matching is exact: the pieces found make up the part, and every part so made is found. */
  lemma {:induction false} MatchIndexedIsExact(part: string, name: string, index: string)
    ensures MatchIndexed(part) == Some((name, index)) <==>
            part == name + "[" + index + "]" && AllWord(name) && AllDigits(index)
  {
    var i := IndexOf(part, '[');
    if part == name + "[" + index + "]" && AllWord(name) && AllDigits(index) {
      assert part[|name|] == '[' && forall j :: 0 <= j < |name| ==> part[j] == name[j];
      assert i == |name|;
      assert part[..i] == name && part[i + 1..|part| - 1] == index;
    }
  }

  function StripZeros(digits: string): string {
    if |digits| > 1 && digits[0] == '0' then StripZeros(digits[1..]) else digits
  }

  // ----- Properties and paths -----

  /** The array or string index a property name denotes, if it is written canonically. */
  function IndexNamed(key: string): Option<nat> {
    if AllDigits(key) && (key[0] != '0' || |key| == 1) then Some(DigitsValue(key)) else None
  }

  function Get(protos: Prototypes, v: Json, key: string): Json {
    match v
    case Undefined => Undefined
    case Null => Undefined
    case Obj(fields) => if key in fields then fields[key] else protos(v, key)
    case Arr(items) =>
      if IndexNamed(key).Some? && IndexNamed(key).value < |items| then items[IndexNamed(key).value]
      else if key == "length" then Num(|items| as real) else protos(v, key)
    case Str(units) =>
      if IndexNamed(key).Some? && IndexNamed(key).value < |units| then Str([units[IndexNamed(key).value]])
      else if key == "length" then Num(|units| as real) else protos(v, key)
    case _ => protos(v, key)
  }

  function Enter(protos: Prototypes, v: Json, part: string): Json {
    match MatchIndexed(part)
    case Some((name, index)) => Get(protos, Get(protos, v, name), StripZeros(index))
    case None => Get(protos, v, part)
  }

  /** Leaves with undefined as soon as there is a part to enter and nothing to enter. */
  function Walk(protos: Prototypes, v: Json, parts: seq<string>): Json
    decreases |parts|
  {
    if parts == [] then v
    else if Nullish(v) then Undefined
    else Walk(protos, Enter(protos, v, parts[0]), parts[1..])
  }

  function ValueAtPath(protos: Prototypes, v: Json, path: string): Json {
    Walk(protos, v, Split(path))
  }

  method GetValueAtPath(protos: Prototypes, obj: Json, path: string) returns (value: Json)
    ensures value == ValueAtPath(protos, obj, path)
  {
    var parts := Split(path);
    var current := obj;
    for i := 0 to |parts|
      invariant Walk(protos, current, parts[i..]) == ValueAtPath(protos, obj, path)
    {
      if current.Null? || current.Undefined? {
        return Undefined;
      }
      assert parts[i..][1..] == parts[i + 1..];
      match MatchIndexed(parts[i]) {
        case Some((arrayName, index)) =>
          current := Get(protos, Get(protos, current, arrayName), StripZeros(index));
        case None =>
          current := Get(protos, current, parts[i]);
      }
    }
    return current;
  }

  lemma {:induction false} SplitStep(c: char, s: string)
    ensures var rest := Split(s);
            Split([c] + s) == if c == '.' then [""] + rest else [[c] + rest[0]] + rest[1..]
  {
    assert ([c] + s)[1..] == s;
  }

  lemma {:induction false} SplitJoins(p: string, q: string)
    ensures Split(p + "." + q) == Split(p) + Split(q)
  {
    if p == "" {
      assert p + "." + q == ['.'] + q;
      SplitStep('.', q);
    } else {
      var t := p[1..] + "." + q;
      assert p + "." + q == [p[0]] + t && p == [p[0]] + p[1..];
      SplitStep(p[0], t);
      SplitStep(p[0], p[1..]);
      SplitJoins(p[1..], q);
      JoinHead(p[0], Split(p[1..]), Split(q));
    }
  }

  lemma {:induction false} JoinHead(c: char, a: seq<string>, b: seq<string>)
    requires a != []
    ensures [""] + (a + b) == ([""] + a) + b
    ensures [[c] + (a + b)[0]] + (a + b)[1..] == ([[c] + a[0]] + a[1..]) + b
  {}

  lemma {:induction false} WalkAppends(protos: Prototypes, v: Json, a: seq<string>, b: seq<string>)
    requires b != []
    ensures Walk(protos, v, a + b) == Walk(protos, Walk(protos, v, a), b)
    decreases |a|
  {
    if a == [] {
      assert a + b == b;
    } else if !Nullish(v) {
      assert (a + b)[1..] == a[1..] + b;
      WalkAppends(protos, Enter(protos, v, a[0]), a[1..], b);
    }
  }

  /** Following a joined path is following one path and then the other, from any value and through
      missing values, nulls and indexed parts. */
  lemma {:induction false} PathComposition(protos: Prototypes, v: Json, p: string, q: string)
    ensures ValueAtPath(protos, v, p + "." + q) == ValueAtPath(protos, ValueAtPath(protos, v, p), q)
  {
    SplitJoins(p, q);
    WalkAppends(protos, v, Split(p), Split(q));
  }

  // ----- What a path finds -----

  lemma {:induction false} SplitWhole(s: string)
    requires '.' !in s
    ensures Split(s) == [s]
  {
    if s != "" {
      assert s[0] in s && forall c :: c in s[1..] ==> c in s;
      SplitWhole(s[1..]);
      assert s == [s[0]] + s[1..];
    }
  }

  lemma {:induction false} WalkOne(protos: Prototypes, v: Json, part: string)
    requires !Nullish(v)
    ensures Walk(protos, v, [part]) == Enter(protos, v, part)
  {
    assert [part][1..] == [];
    assert Walk(protos, Enter(protos, v, part), []) == Enter(protos, v, part);
  }

  /** A path of one part that is no index enters once. */
  lemma {:induction false} OnePart(protos: Prototypes, v: Json, key: string)
    requires '.' !in key && '[' !in key && !Nullish(v)
    ensures ValueAtPath(protos, v, key) == Get(protos, v, key)
  {
    SplitWhole(key);
    WalkOne(protos, v, key);
    assert MatchIndexed(key).None?;
  }

  /** A path finds a field of an object; a field it does not have is looked up on the prototypes. */
  lemma {:induction false} PathFindsField(protos: Prototypes, fields: map<string, Json>, key: string)
    requires '.' !in key && '[' !in key && ']' !in key
    ensures ValueAtPath(protos, Obj(fields), key) == if key in fields then fields[key] else protos(Obj(fields), key)
  {
    OnePart(protos, Obj(fields), key);
  }

  /** Nothing is found in null or undefined, whatever the path. */
  lemma {:induction false} PathOfNothing(protos: Prototypes, path: string)
    ensures ValueAtPath(protos, Null, path) == ValueAtPath(protos, Undefined, path) == Undefined
  {}

  lemma {:induction false} StripKeeps(digits: string)
    requires AllDigits(digits)
    ensures var t := StripZeros(digits);
            AllDigits(t) && (t[0] != '0' || |t| == 1) && DigitsValue(t) == DigitsValue(digits)
  {
    if |digits| > 1 && digits[0] == '0' {
      StripKeeps(digits[1..]);
      LeadingZero(digits[1..]);
      assert digits == "0" + digits[1..];
    }
  }

  lemma {:induction false} LeadingZero(s: string)
    requires forall i :: 0 <= i < |s| ==> IsDigit(s[i])
    ensures forall i :: 0 <= i < |"0" + s| ==> IsDigit(("0" + s)[i])
    ensures DigitsValue("0" + s) == DigitsValue(s)
  {
    var t := "0" + s;
    if s == "" {
      assert t[..|t| - 1] == "";
    } else {
      LeadingZero(s[..|s| - 1]);
      assert t[..|t| - 1] == "0" + s[..|s| - 1];
    }
  }

  lemma {:induction false} IndexedPart(protos: Prototypes, v: Json, name: string, digits: string)
    requires AllWord(name) && AllDigits(digits) && !Nullish(v)
    ensures ValueAtPath(protos, v, name + "[" + digits + "]") == Get(protos, Get(protos, v, name), StripZeros(digits))
  {
    var part := name + "[" + digits + "]";
    forall i | 0 <= i < |part|
      ensures part[i] != '.'
    {
      if i < |name| {
        assert part[i] == name[i] && IsWord(name[i]);
      } else if |name| < i < |part| - 1 {
        assert part[i] == digits[i - |name| - 1] && IsDigit(part[i]);
      }
    }
    SplitWhole(part);
    WalkOne(protos, v, part);
    MatchIndexedIsExact(part, name, digits);
  }

  /** An indexed part finds the element of the named array at the decimal index, leading zeros or
      not; beyond the end it finds what the prototypes have, and in null or undefined nothing. */
  lemma {:induction false} PathFindsElement(protos: Prototypes, fields: map<string, Json>, name: string, digits: string)
    requires AllWord(name) && AllDigits(digits) && name in fields
    ensures var found := ValueAtPath(protos, Obj(fields), name + "[" + digits + "]");
            match fields[name]
            case Arr(items) => if DigitsValue(digits) < |items| then found == items[DigitsValue(digits)]
                               else found == protos(Arr(items), StripZeros(digits))
            case Null => found == Undefined
            case Undefined => found == Undefined
            case _ => true
  {
    IndexedPart(protos, Obj(fields), name, digits);
    StripKeeps(digits);
  }

  lemma {:induction false} DigitsEnterOnce(protos: Prototypes, v: Json, digits: string)
    requires AllDigits(digits) && !Nullish(v)
    ensures ValueAtPath(protos, v, digits) == Get(protos, v, digits)
  {
    forall i | 0 <= i < |digits|
      ensures digits[i] != '.' && digits[i] != '['
    {
      assert IsDigit(digits[i]);
    }
    OnePart(protos, v, digits);
  }

  lemma {:induction false} LengthEntersOnce(protos: Prototypes, v: Json)
    requires !Nullish(v)
    ensures ValueAtPath(protos, v, "length") == Get(protos, v, "length") && IndexNamed("length").None?
  {
    OnePart(protos, v, "length");
    assert !IsDigit("length"[0]);
  }

  /** Arrays and texts: an index finds the element or code unit, "length" how many there are. */
  lemma {:induction false} PathIntoSequence(protos: Prototypes, items: seq<Json>, units: seq<bv16>, digits: string)
    requires AllDigits(digits) && (digits[0] != '0' || |digits| == 1)
    ensures var n := DigitsValue(digits);
            && (n < |items| ==> ValueAtPath(protos, Arr(items), digits) == items[n])
            && (n < |units| ==> ValueAtPath(protos, Str(units), digits) == Str([units[n]]))
    ensures ValueAtPath(protos, Arr(items), "length") == Num(|items| as real)
    ensures ValueAtPath(protos, Str(units), "length") == Num(|units| as real)
  {
    DigitsEnterOnce(protos, Arr(items), digits);
    DigitsEnterOnce(protos, Str(units), digits);
    LengthEntersOnce(protos, Arr(items));
    LengthEntersOnce(protos, Str(units));
  }

  lemma {:induction false} SmallAreListed(c: char)
    ensures c in LOWER <==> 'a' <= c <= 'z'
  {
    if 'a' <= c <= 'z' {
      assert LOWER[c as int - 'a' as int] == c;
    }
  }

  lemma {:induction false} CapitalsAreListed(c: char)
    ensures c in UPPER <==> 'A' <= c <= 'Z'
  {
    if 'A' <= c <= 'Z' {
      assert UPPER[c as int - 'A' as int] == c;
    }
  }

  /** The word characters of a pattern: letters, digits and the underscore. */
  lemma {:induction false} WordsAreListed(c: char)
    ensures IsWord(c) <==> c in LOWER || c in UPPER || c in "0123456789" || c == '_'
  {
    DigitsAreTen(c);
    SmallAreListed(c);
    CapitalsAreListed(c);
  }
}
