/** The expression language of CloudFormation templates over JSON trees
    (internal/aws/cloudformation): printing, parsing, and the round trip. */
module Expressions {
  import opened Text

  /** A JSON value. The fields of an object are listed in the order in which the
      decoder meets them. */
  datatype Json =
    | Bool(b: bool)
    | Number(n: nat)
    | Str(s: string)
    | Arr(items: seq<Json>)
    | Obj(fields: seq<Field>)

  datatype Field = Field(key: string, value: Json)

  datatype StringExpr =
    | Literal(text: string)
    | Computed(func: Func)

  datatype StringListExpr =
    | Literals(items: seq<StringExpr>)
    | ComputedList(func: Func)
    | Wrapped(inner: StringListExpr) // a list that stands as the function of a list

  datatype Func =
    | Ref(name: string)
    | Join(separator: string, items: StringListExpr)
    | Select(selector: string, items: StringListExpr)
    | GetAtt(resource: string, attribute: string)
    | FindInMap(mapName: string, topLevelKey: StringExpr, secondLevelKey: StringExpr)
    | Base64(value: StringExpr)
    | GetAZs(region: StringExpr)
    | ImportValue(valueToImport: StringExpr)

  /** Func types with a String method. */
  predicate IsStringFunc(f: Func) { !f.GetAZs? }

  /** Func types with a StringList method. */
  predicate IsStringListFunc(f: Func) { f.Ref? || f.GetAZs? || f.ImportValue? }

  // Typed trees are what Go's type system lets a caller build.

  predicate Typed(x: StringExpr) {
    x.Computed? ==> IsStringFunc(x.func) && TypedFunc(x.func)
  }

  predicate TypedList(x: StringListExpr) {
    match x
    case Literals(items) => TypedItems(items)
    case ComputedList(func) => IsStringListFunc(func) && TypedFunc(func)
    case Wrapped(inner) => TypedList(inner)
  }

  predicate TypedItems(items: seq<StringExpr>) {
    items != [] ==> Typed(items[0]) && TypedItems(items[1..])
  }

  predicate TypedFunc(f: Func) {
    match f
    case Ref(_) => true
    case Join(_, items) => TypedList(items)
    case Select(_, items) => TypedList(items)
    case GetAtt(_, _) => true
    case FindInMap(_, top, second) => Typed(top) && Typed(second)
    case Base64(value) => Typed(value)
    case GetAZs(region) => Typed(region)
    case ImportValue(value) => Typed(value)
  }

  // Trees without a wrapped list, which the constructors of the package never build.

  predicate Unwrapped(x: StringExpr) {
    x.Computed? ==> UnwrappedFunc(x.func)
  }

  predicate UnwrappedList(x: StringListExpr) {
    match x
    case Literals(items) => UnwrappedItems(items)
    case ComputedList(func) => UnwrappedFunc(func)
    case Wrapped(_) => false
  }

  predicate UnwrappedItems(items: seq<StringExpr>) {
    items != [] ==> Unwrapped(items[0]) && UnwrappedItems(items[1..])
  }

  predicate UnwrappedFunc(f: Func) {
    match f
    case Ref(_) => true
    case Join(_, items) => UnwrappedList(items)
    case Select(_, items) => UnwrappedList(items)
    case GetAtt(_, _) => true
    case FindInMap(_, top, second) => Unwrapped(top) && Unwrapped(second)
    case Base64(value) => Unwrapped(value)
    case GetAZs(region) => Unwrapped(region)
    case ImportValue(value) => Unwrapped(value)
  }

  // The same tree with every wrapped list replaced by its inner list.

  function Unwrap(x: StringExpr): StringExpr {
    match x
    case Literal(_) => x
    case Computed(func) => Computed(UnwrapFunc(func))
  }

  function UnwrapList(x: StringListExpr): StringListExpr {
    match x
    case Literals(items) => Literals(UnwrapItems(items))
    case ComputedList(func) => ComputedList(UnwrapFunc(func))
    case Wrapped(inner) => UnwrapList(inner)
  }

  function UnwrapItems(items: seq<StringExpr>): seq<StringExpr> {
    if items == [] then [] else [Unwrap(items[0])] + UnwrapItems(items[1..])
  }

  function UnwrapFunc(f: Func): Func {
    match f
    case Ref(_) => f
    case Join(separator, items) => Join(separator, UnwrapList(items))
    case Select(selector, items) => Select(selector, UnwrapList(items))
    case GetAtt(_, _) => f
    case FindInMap(mapName, top, second) => FindInMap(mapName, Unwrap(top), Unwrap(second))
    case Base64(value) => Base64(Unwrap(value))
    case GetAZs(region) => GetAZs(Unwrap(region))
    case ImportValue(value) => ImportValue(Unwrap(value))
  }

  // Printing

  function Marshal(x: StringExpr): Json {
    match x
    case Literal(text) => Str(text)
    case Computed(func) => MarshalFunc(func)
  }

  function MarshalList(x: StringListExpr): Json {
    match x
    case Literals(items) => Arr(MarshalItems(items))
    case ComputedList(func) => MarshalFunc(func)
    case Wrapped(inner) => MarshalList(inner)
  }

  function MarshalItems(items: seq<StringExpr>): (r: seq<Json>)
    ensures |r| == |items|
  {
    if items == [] then [] else [Marshal(items[0])] + MarshalItems(items[1..])
  }

  function Call(key: string, argument: Json): Json {
    Obj([Field(key, argument)])
  }

  function MarshalFunc(f: Func): Json {
    match f
    case Ref(name) => Call("Ref", Str(name))
    case Join(separator, items) => Call("Fn::Join", Arr([Str(separator), MarshalList(items)]))
    case Select(selector, items) => Call("Fn::Select", Arr([Str(selector), MarshalList(items)]))
    case GetAtt(resource, attribute) => Call("Fn::GetAtt", Arr([Str(resource), Str(attribute)]))
    case FindInMap(mapName, top, second) =>
      Call("Fn::FindInMap", Arr([Str(mapName), Marshal(top), Marshal(second)]))
    case Base64(value) => Call("Fn::Base64", Marshal(value))
    case GetAZs(region) => Call("Fn::GetAZs", Marshal(region))
    case ImportValue(value) => Call("Fn::ImportValue", Marshal(value))
  }

  // Parsing

  datatype Result<+T> = Ok(value: T) | Err(error: Error)
  {
    predicate IsFailure() { Err? }
    function PropagateFailure<U>(): Result<U>
      requires Err?
    {
      Err(error)
    }
    function Extract(): T
      requires Ok?
    {
      value
    }
  }

  datatype Error = Malformed | UnknownFunction(name: string)

  function Unmarshal(data: Json): Result<StringExpr>
    decreases data, 1
  {
    match data
    case Str(s) => Ok(Literal(s))
    case Obj(fields) =>
      (match UnmarshalFunc(fields, 0)
       case Ok(f) => if IsStringFunc(f) then Ok(Computed(f)) else Err(Malformed)
       case Err(e) => if e.UnknownFunction? then Err(e) else Err(Malformed))
    case _ => Err(Malformed)
  }

  function UnmarshalList(data: Json): Result<StringListExpr>
    decreases data, 1
  {
    match data
    case Arr(items) =>
      var literals :- UnmarshalItems(items);
      Ok(Literals(literals))
    case Obj(fields) =>
      (match UnmarshalFunc(fields, 0)
       case Ok(f) =>
         if IsStringListFunc(f) then Ok(ComputedList(f))
         else if f.GetAtt? then Ok(Wrapped(Literals([Computed(f)])))
         else Err(Malformed)
       case Err(_) => Err(Malformed))
    case Str(s) => Ok(Literals([Literal(s)]))
    case _ => Err(Malformed)
  }

  function UnmarshalItems(items: seq<Json>): (r: Result<seq<StringExpr>>)
    ensures r.Ok? ==> |r.value| == |items|
    decreases items, 0
  {
    if items == [] then Ok([])
    else
      var first :- Unmarshal(items[0]);
      var rest :- UnmarshalItems(items[1..]);
      Ok([first] + rest)
  }

  /** The keys of the object are tried in turn from position i on: the first that
      decodes wins, and a key that names no function ends the search. */
  function UnmarshalFunc(fields: seq<Field>, i: nat): Result<Func>
    requires i <= |fields|
    decreases fields, 0, |fields| - i
  {
    if i == |fields| then Err(Malformed)
    else if !IsFunctionName(fields[i].key) then Err(UnknownFunction(fields[i].key))
    else match UnmarshalCall(fields[i].key, fields[i].value)
      case Ok(f) => Ok(f)
      case Err(_) => UnmarshalFunc(fields, i + 1)
  }

  predicate IsFunctionName(key: string) {
    key in {"Ref", "Fn::Join", "Fn::Select", "Fn::GetAtt", "Fn::FindInMap", "Fn::Base64", "Fn::GetAZs", "Fn::ImportValue"}
  }

  function UnmarshalCall(key: string, argument: Json): Result<Func>
    requires IsFunctionName(key)
    decreases argument, 2
  {
    if key == "Ref" then
      if argument.Str? then Ok(Ref(argument.s)) else Err(Malformed)
    else if key == "Fn::Join" then
      if argument.Arr? && |argument.items| == 2 && argument.items[0].Str? then
        var items :- UnmarshalList(argument.items[1]);
        Ok(Join(argument.items[0].s, items))
      else Err(Malformed)
    else if key == "Fn::Select" then
      if argument.Arr? && |argument.items| == 2 then
        var selector :- Selector(argument.items[0]);
        var items :- UnmarshalList(argument.items[1]);
        Ok(Select(selector, items))
      else Err(Malformed)
    else if key == "Fn::GetAtt" then
      if argument.Arr? && |argument.items| == 2 && argument.items[0].Str? && argument.items[1].Str? then
        Ok(GetAtt(argument.items[0].s, argument.items[1].s))
      else Err(Malformed)
    else if key == "Fn::FindInMap" then
      if argument.Arr? && |argument.items| >= 3 && argument.items[0].Str? then
        var top :- Unmarshal(argument.items[1]);
        var second :- Unmarshal(argument.items[2]);
        Ok(FindInMap(argument.items[0].s, top, second))
      else Err(Malformed)
    else
      var value :- Unmarshal(argument);
      Ok(if key == "Fn::Base64" then Base64(value)
         else if key == "Fn::GetAZs" then GetAZs(value)
         else ImportValue(value))
  }

  /** A selector is kept as text, a number included. */
  function Selector(data: Json): Result<string> {
    match data
    case Str(s) => Ok(s)
    case Number(n) => Ok(FloatText(n))
    case _ => Err(Malformed)
  }

  /** A number as Go prints a floating-point value by default: in exponent form from a
      million on, with as few digits as possible. */
  function FloatText(n: nat): string {
    if n < 1_000_000 then Decimal(n)
    else
      var digits := Decimal(n);
      WithPoint(DropZeros(digits)) + "e+" + PaddedExponent(|digits| - 1)
  }

  /** The point goes after the first digit, if there are more. */
  function WithPoint(digits: string): string
    requires digits != ""
  {
    digits[..1] + if |digits| > 1 then "." + digits[1..] else ""
  }

  /** An exponent has at least two digits. */
  function PaddedExponent(e: nat): string {
    if e < 10 then "0" + Decimal(e) else Decimal(e)
  }

  /** Without trailing zeros, but with the first digit. */
  function DropZeros(digits: string): (r: string)
    requires digits != ""
    ensures r != "" && r <= digits
  {
    if |digits| > 1 && digits[|digits| - 1] == '0' then DropZeros(digits[..|digits| - 1]) else digits
  }

  // Objects with several keys.

  /** The call at position k decodes, and those before it are calls that do not. */
  ghost predicate DecodesFirst(fields: seq<Field>, i: nat, k: nat)
    requires i <= k < |fields|
  {
    && (forall j :: i <= j <= k ==> IsFunctionName(fields[j].key))
    && (forall j :: i <= j < k ==> UnmarshalCall(fields[j].key, fields[j].value).Err?)
    && UnmarshalCall(fields[k].key, fields[k].value).Ok?
  }

  ghost predicate UnknownFirst(fields: seq<Field>, i: nat, k: nat)
    requires i <= k < |fields|
  {
    && (forall j :: i <= j < k ==> IsFunctionName(fields[j].key) && UnmarshalCall(fields[j].key, fields[j].value).Err?)
    && !IsFunctionName(fields[k].key)
  }

  /** Of an object with several keys the first call that decodes is taken; a key that names no
      function before it makes the whole object an unknown function. */
  lemma {:induction false} FirstDecodableWins(fields: seq<Field>, i: nat, k: nat)
    requires i <= k < |fields|
    ensures DecodesFirst(fields, i, k) ==> UnmarshalFunc(fields, i) == UnmarshalCall(fields[k].key, fields[k].value)
    ensures UnknownFirst(fields, i, k) ==> UnmarshalFunc(fields, i) == Err(UnknownFunction(fields[k].key))
    decreases k - i
  {
    if i < k {
      FirstDecodableWins(fields, i + 1, k);
      hide UnmarshalCall;
    }
  }

  // What a number is kept as.

  function PowerOfTen(k: nat): nat {
    if k == 0 then 1 else 10 * PowerOfTen(k - 1)
  }

  lemma Associative(a: nat, b: nat, c: nat)
    ensures a * (b * c) == a * b * c
  {
  }

  lemma {:induction false} PowersAdd(a: nat, b: nat)
    ensures PowerOfTen(a + b) == PowerOfTen(a) * PowerOfTen(b)
  {
    if b > 0 {
      PowersAdd(a, b - 1);
      Associative(PowerOfTen(a), PowerOfTen(b - 1), 10);
    }
  }

  /** m followed by zeros is n followed by this many more. */
  predicate Scaled(m: nat, zeros: nat, n: nat, more: nat) {
    m * PowerOfTen(zeros) == n * PowerOfTen(more)
  }

  lemma {:induction false} DroppedZerosAreAPower(digits: string, n: nat)
    requires digits != "" && ParseDecimal(digits) == Some(n)
    ensures var kept := DropZeros(digits);
            && (|kept| > 1 ==> kept[|kept| - 1] != '0')
            && ParseDecimal(kept).Some? && Scaled(ParseDecimal(kept).value, |digits| - |kept|, n, 0)
  {
    if |digits| > 1 && digits[|digits| - 1] == '0' {
      var front := digits[..|digits| - 1];
      var tens := ParseDecimal(front).value;
      assert n == 10 * tens;
      DroppedZerosAreAPower(front, tens);
      OneZeroMore(ParseDecimal(DropZeros(front)).value, |front| - |DropZeros(front)|, tens);
    }
  }

  lemma OneZeroMore(m: nat, zeros: nat, tens: nat)
    requires Scaled(m, zeros, tens, 0)
    ensures Scaled(m, zeros + 1, 10 * tens, 0)
  {
    Associative(m, PowerOfTen(zeros), 10);
  }

  /** The text has these digits, without trailing zeros and with the point after the first one,
      and this exponent of at least two digits; and it denotes n. */
  ghost predicate InExponentForm(text: string, digits: string, exponent: string, n: nat) {
    && digits != "" && text == WithPoint(digits) + "e+" + exponent
    && (|digits| > 1 ==> digits[|digits| - 1] != '0') && |exponent| >= 2
    && ParseDecimal(digits).Some? && ParseDecimal(exponent).Some?
    && Scaled(ParseDecimal(digits).value, ParseDecimal(exponent).value, n, |digits| - 1)
  }

  /** A number that selects an element is kept as a text that denotes it: in decimal below a
      million, and otherwise in exponent form. */
  lemma SelectorDenotesNumber(n: nat)
    ensures Selector(Number(n)).Ok?
    ensures n < 1_000_000 ==> ParseDecimal(Selector(Number(n)).value) == Some(n)
    ensures n >= 1_000_000 ==> exists digits, exponent :: InExponentForm(Selector(Number(n)).value, digits, exponent, n)
  {
    DecimalRoundTrip(n);
    if n >= 1_000_000 {
      hide InExponentForm, ParseDecimal, Decimal;
      var digits, exponent := LargeNumber(n);
    }
  }

  lemma LargeNumber(n: nat) returns (digits: string, exponent: string)
    requires n >= 1_000_000
    ensures InExponentForm(FloatText(n), digits, exponent, n)
  {
    hide Scaled, ParseDecimal, DropZeros, Decimal, WithPoint, PaddedExponent;
    var all := Decimal(n);
    digits, exponent := DropZeros(all), PaddedExponent(|all| - 1);
    ExponentRoundTrip(|all| - 1);
    DecimalRoundTrip(n);
    DroppedZerosAreAPower(all, n);
    ScaledUp(ParseDecimal(digits).value, |all| - |digits|, |digits| - 1, n);
  }

  lemma ExponentRoundTrip(e: nat)
    ensures |PaddedExponent(e)| >= 2 && ParseDecimal(PaddedExponent(e)) == Some(e)
  {
    DecimalRoundTrip(e);
    LeadingZero(Decimal(e));
  }

  lemma ScaledUp(m: nat, zeros: nat, places: nat, n: nat)
    requires Scaled(m, zeros, n, 0)
    ensures Scaled(m, zeros + places, n, places)
  {
    PowersAdd(zeros, places);
    Associative(m, PowerOfTen(zeros), PowerOfTen(places));
  }

  lemma {:induction false} LeadingZero(s: string)
    requires ParseDecimal(s).Some?
    ensures ParseDecimal("0" + s) == ParseDecimal(s)
  {
    if |s| > 1 {
      assert ("0" + s)[..|s|] == "0" + s[..|s| - 1];
      LeadingZero(s[..|s| - 1]);
    } else {
      assert ("0" + s)[..1] == "0";
    }
  }

  /** A plain string stands for the list of it alone, and is printed as that list. */
  lemma StringIsListOfOne(s: string)
    ensures UnmarshalList(Str(s)).Ok?
    ensures MarshalList(UnmarshalList(Str(s)).value) == Arr([Str(s)])
    ensures UnmarshalList(Arr([Str(s)])) == UnmarshalList(Str(s))
  {
    var list := Literals([Literal(s)]);
    SingletonItems(Literal(s));
    ListReparse(list);
    UnwrapListIsIdentityExactlyOnUnwrapped(list);
    assert MarshalItems([Literal(s)]) == [Str(s)] by {
      assert [Literal(s)][1..] == [];
      assert MarshalItems([Literal(s)]) == [Marshal([Literal(s)][0])] + MarshalItems([]);
    }
  }

  // Parsing what was printed gives back the tree, with wrapped lists unwrapped.

  lemma {:induction false} StringReparse(x: StringExpr)
    requires Typed(x)
    ensures Unmarshal(Marshal(x)) == Ok(Unwrap(x))
    decreases x, 0
  {
    if x.Computed? {
      FuncReparse(x.func);
    }
  }

  lemma {:induction false} ListReparse(x: StringListExpr)
    requires TypedList(x)
    ensures UnmarshalList(MarshalList(x)) == Ok(UnwrapList(x))
    decreases x, 0
  {
    match x
    case Literals(items) => ItemsReparse(items);
    case ComputedList(func) => FuncReparse(func);
    case Wrapped(inner) => ListReparse(inner);
  }

  lemma {:induction false} ItemsReparse(items: seq<StringExpr>)
    requires TypedItems(items)
    ensures UnmarshalItems(MarshalItems(items)) == Ok(UnwrapItems(items))
    decreases items, 0
  {
    if items != [] {
      StringReparse(items[0]);
      ItemsReparse(items[1..]);
      assert MarshalItems(items)[1..] == MarshalItems(items[1..]);
    }
  }

  lemma {:induction false} FuncReparse(f: Func)
    requires TypedFunc(f)
    ensures MarshalFunc(f).Obj? && UnmarshalFunc(MarshalFunc(f).fields, 0) == Ok(UnwrapFunc(f))
    decreases f, 0
  {
    var field := MarshalFunc(f).fields[0];
    assert UnmarshalCall(field.key, field.value) == Ok(UnwrapFunc(f)) by {
      match f
      case Ref(_) =>
      case Join(_, items) => ListReparse(items);
      case Select(_, items) => ListReparse(items);
      case GetAtt(_, _) =>
      case FindInMap(_, top, second) => StringReparse(top); StringReparse(second);
      case Base64(value) => StringReparse(value);
      case GetAZs(region) => StringReparse(region);
      case ImportValue(value) => StringReparse(value);
    }
  }

  lemma {:induction false} UnwrapIsIdentityExactlyOnUnwrapped(x: StringExpr)
    ensures Unwrapped(Unwrap(x))
    ensures Unwrap(x) == x <==> Unwrapped(x)
    decreases x, 0
  {
    if x.Computed? {
      UnwrapFuncIsIdentityExactlyOnUnwrapped(x.func);
    }
  }

  lemma {:induction false} UnwrapListIsIdentityExactlyOnUnwrapped(x: StringListExpr)
    ensures UnwrappedList(UnwrapList(x))
    ensures UnwrapList(x) == x <==> UnwrappedList(x)
    decreases x, 0
  {
    match x
    case Literals(items) => UnwrapItemsIsIdentityExactlyOnUnwrapped(items);
    case ComputedList(func) => UnwrapFuncIsIdentityExactlyOnUnwrapped(func);
    case Wrapped(inner) => UnwrapListIsIdentityExactlyOnUnwrapped(inner);
  }

  lemma {:induction false} UnwrapItemsIsIdentityExactlyOnUnwrapped(items: seq<StringExpr>)
    ensures UnwrappedItems(UnwrapItems(items))
    ensures UnwrapItems(items) == items <==> UnwrappedItems(items)
    decreases items, 0
  {
    if items != [] {
      UnwrapIsIdentityExactlyOnUnwrapped(items[0]);
      UnwrapItemsIsIdentityExactlyOnUnwrapped(items[1..]);
      assert UnwrapItems(items)[1..] == UnwrapItems(items[1..]);
      assert items == [items[0]] + items[1..];
    }
  }

  lemma {:induction false} UnwrapFuncIsIdentityExactlyOnUnwrapped(f: Func)
    ensures UnwrappedFunc(UnwrapFunc(f))
    ensures UnwrapFunc(f) == f <==> UnwrappedFunc(f)
    decreases f, 0
  {
    match f
    case Ref(_) =>
    case Join(_, items) => UnwrapListIsIdentityExactlyOnUnwrapped(items);
    case Select(_, items) => UnwrapListIsIdentityExactlyOnUnwrapped(items);
    case GetAtt(_, _) =>
    case FindInMap(_, top, second) =>
      UnwrapIsIdentityExactlyOnUnwrapped(top);
      UnwrapIsIdentityExactlyOnUnwrapped(second);
    case Base64(value) => UnwrapIsIdentityExactlyOnUnwrapped(value);
    case GetAZs(region) => UnwrapIsIdentityExactlyOnUnwrapped(region);
    case ImportValue(value) => UnwrapIsIdentityExactlyOnUnwrapped(value);
  }

  lemma SingletonItems(x: StringExpr)
    ensures TypedItems([x]) <==> Typed(x)
    ensures UnwrappedItems([x]) <==> Unwrapped(x)
  {
    assert [x][1..] == [];
  }

  /** The round trip, for all typed trees: it is exact if and only if the tree holds no
      wrapped list. */
  lemma RoundTrip(x: StringExpr, list: StringListExpr)
    requires Typed(x) && TypedList(list)
    ensures Unmarshal(Marshal(x)) == Ok(x) <==> Unwrapped(x)
    ensures UnmarshalList(MarshalList(list)) == Ok(list) <==> UnwrappedList(list)
  {
    StringReparse(x);
    UnwrapIsIdentityExactlyOnUnwrapped(x);
    ListReparse(list);
    UnwrapListIsIdentityExactlyOnUnwrapped(list);
  }

  /** A list read from a GetAtt call is wrapped, so it does not survive a round trip. */
  lemma GetAttListDoesNotRoundTrip(resource: string, attribute: string)
    ensures var data := MarshalFunc(GetAtt(resource, attribute));
            var list := Wrapped(Literals([Computed(GetAtt(resource, attribute))]));
            UnmarshalList(data) == Ok(list) && UnmarshalList(MarshalList(list)) == Ok(list.inner)
  {
    var inner := Literals([Computed(GetAtt(resource, attribute))]);
    SingletonItems(Computed(GetAtt(resource, attribute)));
    FuncReparse(GetAtt(resource, attribute));
    ListReparse(inner);
    UnwrapListIsIdentityExactlyOnUnwrapped(inner);
  }

  // Whatever the parser accepts is typed.

  lemma {:induction false} ParsedStringIsTyped(data: Json)
    ensures Unmarshal(data).Ok? ==> Typed(Unmarshal(data).value)
    decreases data, 1
  {
    if data.Obj? {
      ParsedFuncIsTyped(data.fields, 0);
    }
  }

  lemma {:induction false} ParsedListIsTyped(data: Json)
    ensures UnmarshalList(data).Ok? ==> TypedList(UnmarshalList(data).value)
    decreases data, 1
  {
    match data
    case Arr(items) => ParsedItemsAreTyped(items);
    case Obj(fields) =>
      ParsedFuncIsTyped(fields, 0);
      var f := UnmarshalFunc(fields, 0);
      if f.Ok? && f.value.GetAtt? {
        SingletonItems(Computed(f.value));
      }
    case Str(_) => SingletonItems(Literal(data.s));
    case Bool(_) =>
    case Number(_) =>
  }

  lemma {:induction false} ParsedItemsAreTyped(items: seq<Json>)
    ensures UnmarshalItems(items).Ok? ==> TypedItems(UnmarshalItems(items).value)
    decreases items, 0
  {
    if items != [] {
      ParsedStringIsTyped(items[0]);
      ParsedItemsAreTyped(items[1..]);
      var r := UnmarshalItems(items);
      if r.Ok? {
        assert r.value[1..] == UnmarshalItems(items[1..]).value;
      }
    }
  }

  lemma {:induction false} ParsedFuncIsTyped(fields: seq<Field>, i: nat)
    requires i <= |fields|
    ensures UnmarshalFunc(fields, i).Ok? ==> TypedFunc(UnmarshalFunc(fields, i).value)
    decreases fields, 0, |fields| - i
  {
    if i < |fields| && IsFunctionName(fields[i].key) {
      ParsedCallIsTyped(fields[i].key, fields[i].value);
      ParsedFuncIsTyped(fields, i + 1);
    }
  }

  lemma {:induction false} ParsedCallIsTyped(key: string, argument: Json)
    requires IsFunctionName(key)
    ensures UnmarshalCall(key, argument).Ok? ==> TypedFunc(UnmarshalCall(key, argument).value)
    decreases argument, 2
  {
    ParsedStringIsTyped(argument);
    if argument.Arr? {
      if |argument.items| >= 2 {
        ParsedStringIsTyped(argument.items[1]);
        ParsedListIsTyped(argument.items[1]);
      }
      if |argument.items| >= 3 {
        ParsedStringIsTyped(argument.items[2]);
      }
    }
  }

  /** For every JSON tree that parses: printing and parsing again settles after one
      step, and changes nothing if and only if no list was read from a GetAtt call. */
  lemma ReprintingSettles(data: Json, x: StringExpr)
    requires Unmarshal(data) == Ok(x)
    ensures Unmarshal(Marshal(x)) == Ok(Unwrap(x))
    ensures Unmarshal(Marshal(x)) == Ok(x) <==> Unwrapped(x)
    ensures Marshal(Unwrap(x)) == Marshal(x)
  {
    ParsedStringIsTyped(data);
    StringReparse(x);
    UnwrapIsIdentityExactlyOnUnwrapped(x);
    UnwrapPrintsTheSame(x);
  }

  lemma {:induction false} UnwrapPrintsTheSame(x: StringExpr)
    ensures Marshal(Unwrap(x)) == Marshal(x)
    decreases x, 0
  {
    if x.Computed? {
      UnwrapFuncPrintsTheSame(x.func);
    }
  }

  lemma {:induction false} UnwrapListPrintsTheSame(x: StringListExpr)
    ensures MarshalList(UnwrapList(x)) == MarshalList(x)
    decreases x, 0
  {
    match x
    case Literals(items) => UnwrapItemsPrintTheSame(items);
    case ComputedList(func) => UnwrapFuncPrintsTheSame(func);
    case Wrapped(inner) => UnwrapListPrintsTheSame(inner);
  }

  lemma {:induction false} UnwrapItemsPrintTheSame(items: seq<StringExpr>)
    ensures MarshalItems(UnwrapItems(items)) == MarshalItems(items)
    decreases items, 0
  {
    if items != [] {
      UnwrapPrintsTheSame(items[0]);
      UnwrapItemsPrintTheSame(items[1..]);
      assert UnwrapItems(items)[1..] == UnwrapItems(items[1..]);
    }
  }

  lemma {:induction false} UnwrapFuncPrintsTheSame(f: Func)
    ensures MarshalFunc(UnwrapFunc(f)) == MarshalFunc(f)
    decreases f, 0
  {
    match f
    case Ref(_) =>
    case Join(_, items) => UnwrapListPrintsTheSame(items);
    case Select(_, items) => UnwrapListPrintsTheSame(items);
    case GetAtt(_, _) =>
    case FindInMap(_, top, second) =>
      UnwrapPrintsTheSame(top);
      UnwrapPrintsTheSame(second);
    case Base64(value) => UnwrapPrintsTheSame(value);
    case GetAZs(region) => UnwrapPrintsTheSame(region);
    case ImportValue(value) => UnwrapPrintsTheSame(value);
  }
}
