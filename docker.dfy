/** The resource ask of an execution request: `ResourceType` in
    services/docker.py. Its four fields arrive as strings. `cpu` and `gpu`
    must be digit strings and are stored as integers; `ram` and `storage` must
    be digits followed by the unit MB or GB in any letter case, and are
    stored unchanged. Building a `ResourceType` runs every field's validator
    and succeeds only if all of them pass. */
module Docker {
  import opened PyStr

  datatype Result<+T, +E> = Success(value: T) | Failure(error: E)

  /** The fields of `ResourceType`, in declaration order. */
  datatype Field = Cpu | Gpu | Ram | Storage

  function FieldIndex(f: Field): nat {
    match f
    case Cpu => 0
    case Gpu => 1
    case Ram => 2
    case Storage => 3
  }

  /** The four strings a request gives for its resources. */
  datatype RawResources = RawResources(cpu: string, gpu: string, ram: string, storage: string) {
    function Get(f: Field): string {
      match f
      case Cpu => cpu
      case Gpu => gpu
      case Ram => ram
      case Storage => storage
    }
  }

  /** A validated resource ask: counts as integers, quantities as given. */
  datatype ResourceType = ResourceType(cpu: nat, gpu: nat, ram: string, storage: string)

  /** One rejected field: which one, the string it was given, and the message
      its validator raised. */
  datatype FieldError = FieldError(field: Field, input: string, message: string)

  /** CPython's default limit on the number of digits `int()` converts from a
      string (`sys.get_int_max_str_digits()`); longer digit strings raise
      `ValueError`. */
  const MaxStrDigits: nat := 4300

  /** A count the source accepts: a digit string that `int` converts, so at
      most `MaxStrDigits` digits long. */
  predicate ValidCount(v: string) {
    IsDigitString(v) && |v| <= MaxStrDigits
  }

  predicate IsUnitLead(c: char) {
    c == 'M' || c == 'm' || c == 'G' || c == 'g'
  }

  predicate IsUnitTail(c: char) {
    c == 'B' || c == 'b'
  }

  /** A quantity the model accepts: at least one digit, then the two unit
      characters of MB or GB, each in either case. */
  predicate ValidQuantity(v: string) {
    && |v| >= 3
    && (forall i :: 0 <= i < |v| - 2 ==> '0' <= v[i] <= '9')
    && IsUnitLead(v[|v| - 2])
    && IsUnitTail(v[|v| - 1])
  }

  /** The rule a field is checked against: `cpu` and `gpu` share one,
      `ram` and `storage` the other. */
  predicate Accepts(f: Field, v: string) {
    match f
    case Cpu => ValidCount(v)
    case Gpu => ValidCount(v)
    case Ram => ValidQuantity(v)
    case Storage => ValidQuantity(v)
  }

  /** The message of line 13: it begins with the rejected input. */
  function CountMessage(v: string): (m: string)
    ensures |v| < |m| && m[..|v|] == v
  {
    v + " should be a valid non-negative integer string."
  }

  /** The message of line 19: it begins with the rejected input. */
  function QuantityMessage(v: string): (m: string)
    ensures |v| < |m| && m[..|v|] == v
  {
    v + " is not a valid format."
  }

  /** The message of the `ValueError` that `int()` raises on a digit string of
      `digits` digits, more than the limit allows. It does not contain the
      input, and begins with a letter rather than a digit. */
  function IntLimitMessage(digits: nat): (m: string)
    ensures |m| > 0 && !IsDigit(m[0])
  {
    var head := "Exceeds" + " the limit (4300 digits) for integer string conversion: value has ";
    assert "Exceeds"[0] == 'E' && head[0] == 'E';
    head + Decimal(digits) + " digits; use sys.set_int_max_str_digits() to increase the limit"
  }

  /** The validator of `cpu` and `gpu`: `v.isdigit()`, then `int(v)`. It
      accepts exactly the non-empty strings of digits that `int` converts. An
      accepted string is its value's decimal rendering after some leading
      zeros. A string that is not all digits is rejected with a message that
      begins with it; a digit string over the limit is rejected by `int` with
      a message that does not. */
  function ValidatePositiveInt(v: string): (r: Result<nat, string>)
    ensures r.Success? <==> v != [] && |v| <= MaxStrDigits && forall c :: c in v ==> IsDigit(c)
    ensures r.Success? ==> |Decimal(r.value)| <= |v| && v == Zeros(|v| - |Decimal(r.value)|) + Decimal(r.value)
    ensures !IsDigitString(v) ==> r.Failure? && |v| < |r.error| && r.error[..|v|] == v
    ensures IsDigitString(v) && |v| > MaxStrDigits ==>
              r == Failure(IntLimitMessage(|v|)) && r.error[0] != v[0]
  {
    if !IsDigitString(v) then
      Failure(CountMessage(v))
    else if |v| > MaxStrDigits then
      Failure(IntLimitMessage(|v|))
    else
      PaddedDecimal(v);
      Success(DigitsValue(v))
  }

  /** The validator of `ram` and `storage`: `v[:-2].isdigit()` and
      `v[-2:].upper()` one of "MB", "GB"; on success the input itself. */
  function ValidateMemoryFormat(v: string): (r: Result<string, string>)
    ensures r.Success? <==> ValidQuantity(v)
    ensures r.Success? ==> r.value == v
    ensures r.Failure? ==> r.error == QuantityMessage(v) && |v| < |r.error| && r.error[..|v|] == v
  {
    QuantityAcceptance(v);
    if !IsDigitString(Prefix(v, -2)) || Upper(Suffix(v, -2)) !in ["MB", "GB"] then
      Failure(QuantityMessage(v))
    else
      Success(v)
  }

  lemma QuantityAcceptance(v: string)
    ensures (IsDigitString(Prefix(v, -2)) && Upper(Suffix(v, -2)) in ["MB", "GB"]) <==> ValidQuantity(v)
  {
    LastTwoSlices(v);
    if |v| >= 2 {
      var u := Upper(Suffix(v, -2));
      assert u == [UpperChar(v[|v| - 2]), UpperChar(v[|v| - 1])];
      assert u in ["MB", "GB"] <==> IsUnitLead(v[|v| - 2]) && IsUnitTail(v[|v| - 1]);
    }
  }

  function ErrorsOf<T>(f: Field, input: string, r: Result<T, string>): (es: seq<FieldError>)
    ensures |es| <= 1
    ensures es == [] <==> r.Success?
    ensures forall e :: e in es ==> e == FieldError(f, input, r.error)
  {
    if r.Success? then [] else [FieldError(f, input, r.error)]
  }

  /** The all-fields rule, one field at a time. */
  lemma AcceptsEach(raw: RawResources)
    ensures (forall f: Field :: Accepts(f, raw.Get(f)))
            <==> ValidCount(raw.cpu) && ValidCount(raw.gpu) && ValidQuantity(raw.ram) && ValidQuantity(raw.storage)
  {
    assert Accepts(Cpu, raw.Get(Cpu)) == ValidCount(raw.cpu);
    assert Accepts(Gpu, raw.Get(Gpu)) == ValidCount(raw.gpu);
    assert Accepts(Ram, raw.Get(Ram)) == ValidQuantity(raw.ram);
    assert Accepts(Storage, raw.Get(Storage)) == ValidQuantity(raw.storage);
  }

  /** The errors the validators of `raw` raise, in declaration order: at
      most one per field, each carrying the string its field was given. */
  function FieldErrors(raw: RawResources): (errors: seq<FieldError>)
    ensures |errors| <= 4 && Ordered(errors)
    ensures forall e :: e in errors ==> e.input == raw.Get(e.field)
  {
    var e0 := ErrorsOf(Cpu, raw.cpu, ValidatePositiveInt(raw.cpu));
    var e1 := ErrorsOf(Gpu, raw.gpu, ValidatePositiveInt(raw.gpu));
    var e2 := ErrorsOf(Ram, raw.ram, ValidateMemoryFormat(raw.ram));
    var e3 := ErrorsOf(Storage, raw.storage, ValidateMemoryFormat(raw.storage));
    BlocksCarryInput(raw, e0, e1, e2, e3);
    FieldBlocksOrdered(e0, e1, e2, e3);
    e0 + e1 + e2 + e3
  }

  lemma BlocksCarryInput(raw: RawResources, e0: seq<FieldError>, e1: seq<FieldError>, e2: seq<FieldError>, e3: seq<FieldError>)
    requires forall e :: e in e0 ==> e.field == Cpu && e.input == raw.cpu
    requires forall e :: e in e1 ==> e.field == Gpu && e.input == raw.gpu
    requires forall e :: e in e2 ==> e.field == Ram && e.input == raw.ram
    requires forall e :: e in e3 ==> e.field == Storage && e.input == raw.storage
    ensures forall e :: e in e0 + e1 + e2 + e3 ==> e.input == raw.Get(e.field)
  {
  }

  /** Building a `ResourceType` from a request's strings, as pydantic runs the
      field validators: every field is validated, in declaration order; the
      value exists exactly when all four pass, and otherwise every failure is
      reported together. */
  function NewResourceType(raw: RawResources): (r: Result<ResourceType, seq<FieldError>>)
    ensures r.Success? <==> forall f: Field :: Accepts(f, raw.Get(f))
    ensures r.Success? ==>
              && ValidatePositiveInt(raw.cpu) == Success(r.value.cpu)
              && ValidatePositiveInt(raw.gpu) == Success(r.value.gpu)
              && r.value.ram == raw.ram && r.value.storage == raw.storage
    ensures r.Failure? ==> r.error != [] && r.error == FieldErrors(raw)
  {
    var c := ValidatePositiveInt(raw.cpu);
    var g := ValidatePositiveInt(raw.gpu);
    var m := ValidateMemoryFormat(raw.ram);
    var s := ValidateMemoryFormat(raw.storage);
    AcceptsEach(raw);
    if c.Success? && g.Success? && m.Success? && s.Success? then
      Success(ResourceType(c.value, g.value, m.value, s.value))
    else
      Failure(FieldErrors(raw))
  }

  /** What a field error's message says about the input: the validators'
      own messages begin with it; `int`'s digit-limit message, for a count
      over the limit, does not. */
  predicate MessageFits(e: FieldError) {
    || (|e.input| < |e.message| && e.message[..|e.input|] == e.input)
    || (&& (e.field == Cpu || e.field == Gpu)
        && IsDigitString(e.input) && |e.input| > MaxStrDigits
        && e.message == IntLimitMessage(|e.input|))
  }

  /** A rejection's errors each name a failing field and the string it was
      given; the message begins with that string unless `int` refused a count
      for its length. */
  lemma ResourceTypeErrorsDescribeInput(raw: RawResources)
    requires NewResourceType(raw).Failure?
    ensures var errors := NewResourceType(raw).error;
            forall i :: 0 <= i < |errors| ==>
              && errors[i].input == raw.Get(errors[i].field)
              && !Accepts(errors[i].field, errors[i].input)
              && MessageFits(errors[i])
  {
    var errors := FieldErrors(raw);
    forall i | 0 <= i < |errors|
      ensures && errors[i].input == raw.Get(errors[i].field)
              && !Accepts(errors[i].field, errors[i].input)
              && MessageFits(errors[i])
    {
      assert errors[i] in errors;
      var e0 := ErrorsOf(Cpu, raw.cpu, ValidatePositiveInt(raw.cpu));
      var e1 := ErrorsOf(Gpu, raw.gpu, ValidatePositiveInt(raw.gpu));
      var e2 := ErrorsOf(Ram, raw.ram, ValidateMemoryFormat(raw.ram));
      var e3 := ErrorsOf(Storage, raw.storage, ValidateMemoryFormat(raw.storage));
      assert errors[i] in e0 || errors[i] in e1 || errors[i] in e2 || errors[i] in e3;
    }
  }

  /** Errors listed in strictly increasing field order. */
  predicate Ordered(errors: seq<FieldError>) {
    forall i, j :: 0 <= i < j < |errors| ==> FieldIndex(errors[i].field) < FieldIndex(errors[j].field)
  }

  /** Two ordered lists, every field of the first before every field of the
      second, concatenate to an ordered list. */
  lemma OrderedConcat(a: seq<FieldError>, b: seq<FieldError>)
    requires Ordered(a) && Ordered(b)
    requires forall x, y :: x in a && y in b ==> FieldIndex(x.field) < FieldIndex(y.field)
    ensures Ordered(a + b)
  {
    var ab := a + b;
    forall i, j | 0 <= i < j < |ab|
      ensures FieldIndex(ab[i].field) < FieldIndex(ab[j].field)
    {
      if j < |a| {
        assert ab[i] == a[i] && ab[j] == a[j];
      } else if |a| <= i {
        assert ab[i] == b[i - |a|] && ab[j] == b[j - |a|];
      } else {
        assert ab[i] == a[i] && a[i] in a;
        assert ab[j] == b[j - |a|] && b[j - |a|] in b;
      }
    }
  }

  /** Four lists of errors about one field each, at most one error per
      list, concatenated in declaration order, are ordered. */
  lemma FieldBlocksOrdered(e0: seq<FieldError>, e1: seq<FieldError>, e2: seq<FieldError>, e3: seq<FieldError>)
    requires |e0| <= 1 && |e1| <= 1 && |e2| <= 1 && |e3| <= 1
    requires forall e :: e in e0 ==> e.field == Cpu
    requires forall e :: e in e1 ==> e.field == Gpu
    requires forall e :: e in e2 ==> e.field == Ram
    requires forall e :: e in e3 ==> e.field == Storage
    ensures Ordered(e0 + e1 + e2 + e3)
  {
    OrderedConcat(e0, e1);
    OrderedConcat(e0 + e1, e2);
    OrderedConcat(e0 + e1 + e2, e3);
  }

  /** The concatenation of four lists of errors about one field each mentions
      a field exactly when that field's own list is non-empty. */
  lemma FieldBlocksMention(e0: seq<FieldError>, e1: seq<FieldError>, e2: seq<FieldError>, e3: seq<FieldError>, f: Field)
    requires forall e :: e in e0 ==> e.field == Cpu
    requires forall e :: e in e1 ==> e.field == Gpu
    requires forall e :: e in e2 ==> e.field == Ram
    requires forall e :: e in e3 ==> e.field == Storage
    ensures (exists e :: e in e0 + e1 + e2 + e3 && e.field == f)
            <==> match f
                 case Cpu => e0 != []
                 case Gpu => e1 != []
                 case Ram => e2 != []
                 case Storage => e3 != []
  {
    var block := match f
      case Cpu => e0
      case Gpu => e1
      case Ram => e2
      case Storage => e3;
    assert forall e :: e in block ==> e in e0 + e1 + e2 + e3;
    assert forall e :: e in e0 + e1 + e2 + e3 && e.field == f ==> e in block;
    if block != [] {
      assert block[0] in block;
    }
  }

  /** A rejection names every failing field, once each, in declaration order. */
  lemma ResourceTypeErrorsComplete(raw: RawResources, f: Field)
    requires NewResourceType(raw).Failure?
    ensures var errors := NewResourceType(raw).error;
            && (!Accepts(f, raw.Get(f)) <==> exists e :: e in errors && e.field == f)
            && Ordered(errors)
  {
    var e0 := ErrorsOf(Cpu, raw.cpu, ValidatePositiveInt(raw.cpu));
    var e1 := ErrorsOf(Gpu, raw.gpu, ValidatePositiveInt(raw.gpu));
    var e2 := ErrorsOf(Ram, raw.ram, ValidateMemoryFormat(raw.ram));
    var e3 := ErrorsOf(Storage, raw.storage, ValidateMemoryFormat(raw.storage));
    FieldBlocksOrdered(e0, e1, e2, e3);
    FieldBlocksMention(e0, e1, e2, e3, f);
  }

  /** `int` of an accepted count is its decimal value: leading zeros count
      for nothing, as long as the padded string stays within the digit
      limit. */
  lemma {:induction false} LeadingZerosIgnored(k: nat, v: string)
    requires ValidCount(v) && k + |v| <= MaxStrDigits
    ensures ValidatePositiveInt(Zeros(k) + v) == ValidatePositiveInt(v)
  {
    ZerosValue(k, v);
  }

  /** Leading zeros that take a count past the digit limit make `int`
      refuse it. */
  lemma {:induction false} LeadingZerosOverLimit(k: nat, v: string)
    requires IsDigitString(v) && k + |v| > MaxStrDigits
    ensures ValidatePositiveInt(Zeros(k) + v) == Failure(IntLimitMessage(k + |v|))
  {
    var w := Zeros(k) + v;
    ZerosValue(k, v);
    assert |w| == k + |v| > MaxStrDigits;
    assert AllDigits(w);
    assert IsDigitString(w);
    assert ValidatePositiveInt(w) == Failure(IntLimitMessage(|w|));
  }

  /** Round trip: the decimal rendering of every natural number below
      `10^MaxStrDigits` is accepted and yields that number. */
  lemma CountRoundTrip(n: nat)
    requires n < Pow10(MaxStrDigits)
    ensures ValidatePositiveInt(Decimal(n)) == Success(n)
  {
    DecimalLength(n, MaxStrDigits);
    DecimalValue(n);
  }

  /** A count without leading zeros is the rendering of the value it yields. */
  lemma CountCanonical(v: string)
    requires ValidCount(v) && (|v| == 1 || v[0] != '0')
    ensures ValidatePositiveInt(v).Success? && Decimal(ValidatePositiveInt(v).value) == v
  {
    CanonicalDecimal(v);
  }

  lemma CountExamples()
    ensures ValidatePositiveInt("").Failure?
    ensures ValidatePositiveInt("-1").Failure?
    ensures ValidatePositiveInt("+2").Failure?
    ensures ValidatePositiveInt("1.5").Failure?
    ensures ValidatePositiveInt("0") == Success(0)
  {
    assert !IsDigit('-') && !IsDigit('+') && !IsDigit('.');
    assert '-' in "-1" && '+' in "+2" && '.' in "1.5";
  }

  lemma LeadingZerosExample()
    ensures ValidatePositiveInt("007") == Success(7)
  {
    assert Zeros(2) + "7" == "007";
    LeadingZerosIgnored(2, "7");
    assert ValidatePositiveInt("7") == Success(7);
  }

  /** The unit is matched without regard to letter case: a quantity is
      accepted exactly when its upper-cased form is. */
  lemma CaseInsensitiveUnit(v: string)
    ensures ValidateMemoryFormat(Upper(v)).Success? <==> ValidateMemoryFormat(v).Success?
  {
    var u := Upper(v);
    forall i | 0 <= i < |v|
      ensures IsDigit(u[i]) == IsDigit(v[i])
      ensures IsUnitLead(u[i]) == IsUnitLead(v[i]) && IsUnitTail(u[i]) == IsUnitTail(v[i])
    {
      UpperCharKeepsClass(v[i]);
    }
    assert ValidQuantity(u) <==> ValidQuantity(v);
  }

  /** Upper-casing keeps digits digits and unit letters unit letters. */
  lemma UpperCharKeepsClass(c: char)
    ensures IsDigit(UpperChar(c)) == IsDigit(c)
    ensures IsUnitLead(UpperChar(c)) == IsUnitLead(c)
    ensures IsUnitTail(UpperChar(c)) == IsUnitTail(c)
  {
  }

  /** Validation is the identity on success, so applying it again changes
      nothing. */
  lemma QuantityIdempotent(v: string)
    requires ValidateMemoryFormat(v).Success?
    ensures ValidateMemoryFormat(ValidateMemoryFormat(v).value) == ValidateMemoryFormat(v)
  {
  }

  lemma QuantityExamples()
    ensures ValidateMemoryFormat("100XB").Failure?
    ensures ValidateMemoryFormat("MB").Failure?
    ensures ValidateMemoryFormat("5").Failure?
    ensures ValidateMemoryFormat("1.5GB").Failure?
    ensures ValidateMemoryFormat("512mb") == Success("512mb")
    ensures ValidateMemoryFormat("512Mb") == Success("512Mb")
    ensures ValidateMemoryFormat("1gB") == Success("1gB")
  {
    var w := "1.5GB";
    assert w[1] == '.';
    assert ValidQuantity("512mb") && ValidQuantity("512Mb") && ValidQuantity("1gB");
  }
}
