/** The data sheet reader `load_hospital_data` of `backend/providers.py`: a
    line-oriented state machine over sections (provider directory,
    appointment notes, accepted insurances, self-pay prices) that builds
    providers with their departments, the list of accepted plans and the
    self-pay price table. Reading the file and `splitlines` are outside the
    model: the reader starts from the file's lines. */
module Directory {
  import opened Wrappers
  import opened Text
  import opened Seqs
  import opened Dicts
  import opened Hours

  /** A department entry; each field is present only if its line appeared. */
  datatype Department = Department(
    name: Option<string>,
    phone: Option<string>,
    address: Option<string>,
    hoursRaw: Option<string>,
    hours: Option<seq<Rule>>)

  const NoFields: Department := Department(None, None, None, None, None)

  datatype Provider = Provider(
    name: string,
    certification: Option<string>,
    specialty: Option<string>,
    departments: seq<Department>)

  /** What the reader returns: providers in file order, the accepted plans,
      and self-pay prices by specialty in first-insertion order. */
  datatype Hospital = Hospital(
    providers: seq<Provider>,
    acceptedInsurances: seq<string>,
    selfPay: seq<(string, real)>)

  datatype Section = Unsectioned | ProviderDirectory | AppointmentsMeta | Insurances | SelfPay

  /** `[ln.rstrip() for ln in text.splitlines() if ln.strip()]`. */
  function Lines(raw: seq<string>): (lines: seq<string>)
    ensures |lines| <= |raw|
  {
    var kept := Filter(raw, (ln: string) => Strip(ln) != "");
    seq(|kept|, k requires 0 <= k < |kept| => RStrip(kept[k]))
  }

  /** The section a header line switches to. */
  function Header(line: string): Option<Section>
  {
    var t := Strip(line);
    if t == "Provider Directory" then Some(ProviderDirectory)
    else if StartsWith(t, "Appointments:") then Some(AppointmentsMeta)
    else if StartsWith(t, "Accepted Insurances:") then Some(Insurances)
    else if StartsWith(t, "Self-pay:") then Some(SelfPay)
    else None
  }

  /** A line that opens a department block. */
  predicate IsDeptHead(line: string)
  {
    var t := Strip(line);
    StartsWith(t, "- department:") || StartsWith(t, "department:")
  }

  /** A line the department block absorbs: its stripped text starts with one of the field prefixes. */
  predicate IsDeptField(line: string)
  {
    var t := Strip(line);
    || StartsWith(t, "- name") || StartsWith(t, "name")
    || StartsWith(t, "- phone") || StartsWith(t, "phone")
    || StartsWith(t, "- address") || StartsWith(t, "address")
    || StartsWith(t, "- hours") || StartsWith(t, "hours")
  }

  /** `line[2:].strip()`: the text of a `- ` list line (empty for a line shorter than two characters). */
  function ListItem(line: string): string
  {
    Strip(if |line| < 2 then "" else line[2..])
  }

  /** `lines[j].strip().lstrip("- ").strip()`. */
  function FieldText(line: string): string
  {
    Strip(StripLeft(Strip(line), {'-', ' '}))
  }

  /** One field line applied to the department being read. An `hours:` line
      keeps its raw text and the parsed rules; any other text changes nothing. */
  function ApplyField(dept: Department, line: string): Result<Department, LoadError>
  {
    var ln := FieldText(line);
    if StartsWith(ln, "name:") then Ok(dept.(name := Some(Strip(ln[5..]))))
    else if StartsWith(ln, "phone:") then Ok(dept.(phone := Some(Strip(ln[6..]))))
    else if StartsWith(ln, "address:") then Ok(dept.(address := Some(Strip(ln[8..]))))
    else if StartsWith(ln, "hours:") then
      var raw := Strip(ln[6..]);
      match HoursRules(raw)
      case Err(e) => Err(e)
      case Ok(rules) => Ok(dept.(hoursRaw := Some(raw), hours := Some(rules)))
    else Ok(dept)
  }

  /** The department block from line `j` on: field lines are absorbed until the
      first line that is not one; the result carries the index of that line. */
  function DeptFrom(lines: seq<string>, j: nat, dept: Department): (r: Result<(Department, nat), LoadError>)
    requires j <= |lines|
    ensures r.Ok? ==> j <= r.value.1 <= |lines|
    ensures r.Ok? ==> forall k :: j <= k < r.value.1 ==> IsDeptField(lines[k])
    ensures r.Ok? ==> r.value.1 == |lines| || !IsDeptField(lines[r.value.1])
    decreases |lines| - j
  {
    if j < |lines| && IsDeptField(lines[j]) then
      match ApplyField(dept, lines[j])
      case Err(e) => Err(e)
      case Ok(d) => DeptFrom(lines, j + 1, d)
    else Ok((dept, j))
  }

  // ----- self-pay prices -----

  /** `float(s)` for plain decimal text: an optional sign, then digits with at most one
      decimal point and at least one digit. */
  function ParsePrice(s: string): Option<real>
  {
    var negative := |s| > 0 && s[0] == '-';
    var body := if |s| > 0 && (s[0] == '-' || s[0] == '+') then s[1..] else s;
    var whole := Before(body, ".");
    var frac := if Contains(body, ".") then After(body, ".") else "";
    if AllDigits(whole) && AllDigits(frac) && |whole| + |frac| >= 1 then
      var magnitude := DecimalValue(whole, frac);
      Some(if negative then -magnitude else magnitude)
    else None
  }

  /** The value of decimal digits `whole` before the point and `frac` after it. */
  function DecimalValue(whole: string, frac: string): real
    requires AllDigits(whole) && AllDigits(frac)
  {
    DigitsValue(whole) as real + DigitsValue(frac) as real / Pow10(|frac|) as real
  }

  /** A `- Specialty: $price` line of the self-pay section: skipped unless the
      item holds both `:` and `$` and the text after the colon, without `$`, is a number. */
  function SelfPayItem(line: string): Option<(string, real)>
  {
    if !StartsWith(line, "- ") then None
    else
      var rest := ListItem(line);
      if !(Contains(rest, ":") && Contains(rest, "$")) then None
      else
        match ParsePrice(Strip(RemoveAll(After(rest, ":"), "$")))
        case None => None
        case Some(price) => Some((Strip(Before(rest, ":")), price))
  }

  /** A whole number written out in decimal reads back as itself. */
  lemma PriceOfWhole(n: nat)
    ensures ParsePrice(NatToString(n)) == Some(n as real)
  {
    var d := NatToString(n);
    DigitsHaveNoSeparator(d, '.');
    NoSeparator(d, '.');
    NatToStringValue(n);
    assert !IsDigit('-') && !IsDigit('+');
  }

  /** Unsigned digits, a point and more digits read back as the whole part plus the fraction. */
  lemma PriceOfDecimal(w: string, f: string)
    requires |w| > 0 && AllDigits(w) && AllDigits(f)
    ensures ParsePrice(w + "." + f) == Some(DecimalValue(w, f))
  {
    var s := w + "." + f;
    assert s == w + ['.'] + f;
    DigitsHaveNoSeparator(w, '.');
    FirstSeparator(w, f, '.');
    assert s[0] == w[0];
    assert !IsDigit('-') && !IsDigit('+');
    assert Before(s, ".") == w;
    assert After(s, ".") == f;
  }

  /** Dollars and two-digit cents, as `PriceOfDecimal` reads them, are dollars plus cents over 100. */
  lemma CentsValue(n: nat, c: nat)
    requires c < 100
    ensures DecimalValue(NatToString(n), Pad(c, 2)) == n as real + c as real / 100.0
  {
    NatToStringValue(n);
    PadRoundTrip(c, 2);
    assert Pow10(2) == 100;
  }

  /** Text that is a price, free of `$` and of surrounding blanks. */
  predicate PriceText(p: string, v: real)
  {
    |p| > 0 && !IsSpace(p[0]) && !IsSpace(p[|p| - 1]) && '$' !in p && ParsePrice(p) == Some(v)
  }

  /** A specialty name that survives `strip` and holds neither `:` nor `$`. */
  predicate PlainName(name: string)
  {
    |name| > 0 && !IsSpace(name[0]) && !IsSpace(name[|name| - 1]) && ':' !in name && '$' !in name
  }

  /** The text after the colon of a written-out item is the price once `$` and blanks are dropped. */
  lemma PriceAfterColon(p: string, v: real)
    requires PriceText(p, v)
    ensures Strip(RemoveAll(" $" + p, "$")) == p
  {
    var t := " $" + p;
    assert !StartsWith(t, "$");
    assert t[1..] == "$" + p && StartsWith(t[1..], "$");
    assert t[1..][1..] == p;
    RemoveAbsent(p, '$');
    assert RemoveAll(t, "$") == [' '] + p;
    StripBlank(p);
  }

  lemma ItemOfWritten(name: string, p: string, v: real)
    requires PlainName(name) && PriceText(p, v)
    ensures ListItem("- " + name + ": $" + p) == name + ": $" + p
  {
    var line := "- " + name + ": $" + p;
    var rest := name + ": $" + p;
    assert line[2..] == rest;
    StripSelf(rest);
  }

  lemma ColonOfWritten(name: string, p: string, v: real)
    requires PlainName(name) && PriceText(p, v)
    ensures var rest := name + ": $" + p;
      Contains(rest, ":") && Contains(rest, "$") && Before(rest, ":") == name && After(rest, ":") == " $" + p
  {
    var rest := name + ": $" + p;
    assert rest == name + [':'] + (" $" + p);
    FirstSeparator(name, " $" + p, ':');
    assert rest == (name + ": ") + ['$'] + p;
    FirstSeparator(name + ": ", p, '$');
  }

  /** A self-pay line written as `- Specialty: $price` reads back as that specialty and price. */
  lemma SelfPayLineRoundTrip(name: string, p: string, v: real)
    requires PlainName(name) && PriceText(p, v)
    ensures SelfPayItem("- " + name + ": $" + p) == Some((name, v))
  {
    var line := "- " + name + ": $" + p;
    assert line[..2] == "- ";
    ItemOfWritten(name, p, v);
    ColonOfWritten(name, p, v);
    PriceAfterColon(p, v);
    StripSelf(name);
  }

  /** Items lacking `:` or `$` anywhere on the line are skipped. */
  lemma SelfPaySkipsUnmarked(line: string)
    requires ':' !in line || '$' !in line
    ensures SelfPayItem(line).None?
  {
    if SelfPayItem(line).Some? {
      var rest := ListItem(line);
      ContainsChar(rest, ':');
      ContainsChar(rest, '$');
      StripInside(line[2..], ':');
      StripInside(line[2..], '$');
      assert false;
    }
  }

  // ----- the reader as a state machine -----

  /** The loop variables of `load_hospital_data` other than the line index. */
  datatype ScanState = ScanState(
    section: Section,
    current: Option<Provider>,
    providers: seq<Provider>,
    accepted: seq<string>,
    selfPay: seq<(string, real)>)

  const Init: ScanState := ScanState(Unsectioned, None, [], [], [])

  /** The providers list after flushing the provider being built. */
  function Flushed(st: ScanState): seq<Provider>
  {
    st.providers + (if st.current.Some? then [st.current.value] else [])
  }

  /** One line of the provider directory: a `- ` line starts a new provider, a
      `certification:` or `specialty:` line sets that field, a department head
      reads its block; detail lines before any provider raise. */
  function ProviderStep(lines: seq<string>, i: nat, st: ScanState): (r: Result<(ScanState, nat), LoadError>)
    requires i < |lines|
    ensures r.Ok? ==> i < r.value.1 <= |lines|
    ensures r.Ok? ==> r.value.0 == st.(current := r.value.0.current, providers := r.value.0.providers)
  {
    var line := lines[i];
    if StartsWith(line, "- ") then
      Ok((st.(providers := Flushed(st), current := Some(Provider(ListItem(line), None, None, []))), i + 1))
    else if Contains(line, "certification:") then
      if st.current.None? then Err(NoCurrentProvider(line))
      else Ok((st.(current := Some(st.current.value.(certification := Some(Strip(After(line, "certification:")))))), i + 1))
    else if Contains(line, "specialty:") then
      if st.current.None? then Err(NoCurrentProvider(line))
      else Ok((st.(current := Some(st.current.value.(specialty := Some(Strip(After(line, "specialty:")))))), i + 1))
    else if IsDeptHead(line) then
      match DeptFrom(lines, i + 1, NoFields)
      case Err(e) => Err(e)
      case Ok((dept, j)) =>
        if st.current.None? then Err(NoCurrentProvider(line))
        else Ok((st.(current := Some(st.current.value.(departments := st.current.value.departments + [dept]))), j))
    else Ok((st, i + 1))
  }

  /** A line of the insurance section: each `- ` item is an accepted plan. */
  function InsuranceStep(st: ScanState, line: string): ScanState
  {
    if StartsWith(line, "- ") then st.(accepted := st.accepted + [ListItem(line)]) else st
  }

  /** A line of the self-pay section: a well-formed item sets the price of its specialty. */
  function SelfPayStep(st: ScanState, line: string): (r: ScanState)
    requires UniqueKeys(st.selfPay)
    ensures UniqueKeys(r.selfPay)
  {
    match SelfPayItem(line)
    case Some((key, price)) => st.(selfPay := Assign(st.selfPay, key, price))
    case None => st
  }

  /** One turn of the outer loop: a header switches section; otherwise the line
      is read according to the section in force. */
  function Step(lines: seq<string>, i: nat, st: ScanState): (r: Result<(ScanState, nat), LoadError>)
    requires i < |lines| && UniqueKeys(st.selfPay)
    ensures r.Ok? ==> i < r.value.1 <= |lines| && UniqueKeys(r.value.0.selfPay)
  {
    var line := lines[i];
    match Header(line)
    case Some(sec) => Ok((st.(section := sec), i + 1))
    case None =>
      match st.section
      case ProviderDirectory => ProviderStep(lines, i, st)
      case Insurances => Ok((InsuranceStep(st, line), i + 1))
      case SelfPay => Ok((SelfPayStep(st, line), i + 1))
      case _ => Ok((st, i + 1))
  }

  /** The reader from line `i` on, ending with the final flush of the provider being built. */
  function Scan(lines: seq<string>, i: nat, st: ScanState): Result<Hospital, LoadError>
    requires i <= |lines| && UniqueKeys(st.selfPay)
    decreases |lines| - i
  {
    if i == |lines| then Ok(Hospital(Flushed(st), st.accepted, st.selfPay))
    else
      match Step(lines, i, st)
      case Err(e) => Err(e)
      case Ok((next, j)) => Scan(lines, j, next)
  }

  /** `Scan` takes one turn of the outer loop. */
  lemma ScanStep(lines: seq<string>, i: nat, st: ScanState)
    requires i < |lines| && UniqueKeys(st.selfPay)
    ensures Step(lines, i, st).Err? ==> Scan(lines, i, st) == Err(Step(lines, i, st).error)
    ensures Step(lines, i, st).Ok? ==> Scan(lines, i, st) == Scan(lines, Step(lines, i, st).value.1, Step(lines, i, st).value.0)
  {
  }

  /** At the end of the lines `Scan` flushes the provider being built. */
  lemma ScanDone(lines: seq<string>, st: ScanState)
    requires UniqueKeys(st.selfPay)
    ensures Scan(lines, |lines|, st) == Ok(Hospital(Flushed(st), st.accepted, st.selfPay))
  {
  }

  /** `load_hospital_data` on the lines of the data sheet. */
  function LoadHospital(raw: seq<string>): Result<Hospital, LoadError>
  {
    Scan(Lines(raw), 0, Init)
  }

  /** `load_hospital_data`: the outer loop over lines, then the final flush. */
  method LoadHospitalData(raw: seq<string>) returns (r: Result<Hospital, LoadError>)
    ensures r == LoadHospital(raw)
  {
    var lines := Lines(raw);
    var st := Init;
    var i := 0;
    while i < |lines|
      invariant i <= |lines| && UniqueKeys(st.selfPay)
      invariant Scan(lines, i, st) == Scan(lines, 0, Init)
      decreases |lines| - i
    {
      ScanStep(lines, i, st);
      var step := ReadLine(lines, i, st);
      if step.Err? {
        return Err(step.error);
      }
      st, i := step.value.0, step.value.1;
    }
    var providers := st.providers;
    if st.current.Some? {
      providers := providers + [st.current.value];
    }
    assert providers == Flushed(st);
    ScanDone(lines, st);
    return Ok(Hospital(providers, st.accepted, st.selfPay));
  }

  /** One turn of the outer loop: a header switches section; otherwise the section in
      force decides how the line is read. */
  method ReadLine(lines: seq<string>, i: nat, st: ScanState) returns (r: Result<(ScanState, nat), LoadError>)
    requires i < |lines| && UniqueKeys(st.selfPay)
    ensures r == Step(lines, i, st)
  {
    var line := lines[i];
    var header := Header(line);
    if header.Some? {
      return Ok((st.(section := header.value), i + 1));
    }
    if st.section == ProviderDirectory {
      r := ReadProviderLine(lines, i, st);
    } else if st.section == Insurances {
      var next := ReadInsuranceLine(st, line);
      r := Ok((next, i + 1));
    } else if st.section == SelfPay {
      var next := ReadSelfPayLine(st, line);
      r := Ok((next, i + 1));
    } else {
      r := Ok((st, i + 1));
    }
  }

  /** A line of the insurance section, as the outer loop's second branch handles it. */
  method ReadInsuranceLine(st: ScanState, line: string) returns (next: ScanState)
    ensures next == InsuranceStep(st, line)
  {
    var accepted := st.accepted;
    if StartsWith(line, "- ") {
      accepted := accepted + [ListItem(line)];
    }
    next := st.(accepted := accepted);
  }

  /** A line of the self-pay section, as the outer loop's third branch handles it. */
  method ReadSelfPayLine(st: ScanState, line: string) returns (next: ScanState)
    requires UniqueKeys(st.selfPay)
    ensures next == SelfPayStep(st, line)
  {
    var selfPay := st.selfPay;
    var item := SelfPayItem(line);
    if item.Some? {
      selfPay := Assign(selfPay, item.value.0, item.value.1);
    }
    next := st.(selfPay := selfPay);
  }

  /** One line of the provider directory, as the outer loop's first branch handles it. */
  method ReadProviderLine(lines: seq<string>, i: nat, st: ScanState) returns (r: Result<(ScanState, nat), LoadError>)
    requires i < |lines|
    ensures r == ProviderStep(lines, i, st)
  {
    var line := lines[i];
    var current := st.current;
    if StartsWith(line, "- ") {
      var providers := st.providers;
      if current.Some? {
        providers := providers + [current.value];
      }
      assert providers == Flushed(st);
      current := Some(Provider(ListItem(line), None, None, []));
      return Ok((st.(providers := providers, current := current), i + 1));
    } else if Contains(line, "certification:") {
      if current.None? {
        return Err(NoCurrentProvider(line));
      }
      current := Some(current.value.(certification := Some(Strip(After(line, "certification:")))));
    } else if Contains(line, "specialty:") {
      if current.None? {
        return Err(NoCurrentProvider(line));
      }
      current := Some(current.value.(specialty := Some(Strip(After(line, "specialty:")))));
    } else if IsDeptHead(line) {
      var block := ReadDepartment(lines, i + 1);
      if block.Err? {
        return Err(block.error);
      }
      var (dept, j) := block.value;
      if current.None? {
        return Err(NoCurrentProvider(line));
      }
      current := Some(current.value.(departments := current.value.departments + [dept]));
      return Ok((st.(current := current), j));
    }
    return Ok((st.(current := current), i + 1));
  }

  /** The inner loop of `load_hospital_data`: absorbs the field lines that follow a department head. */
  method ReadDepartment(lines: seq<string>, from: nat) returns (r: Result<(Department, nat), LoadError>)
    requires from <= |lines|
    ensures r == DeptFrom(lines, from, NoFields)
  {
    var dept := NoFields;
    var j := from;
    while j < |lines| && IsDeptField(lines[j])
      invariant from <= j <= |lines|
      invariant DeptFrom(lines, j, dept) == DeptFrom(lines, from, NoFields)
      decreases |lines| - j
    {
      var next := ReadField(dept, lines[j]);
      if next.Err? {
        return Err(next.error);
      }
      dept := next.value;
      j := j + 1;
    }
    return Ok((dept, j));
  }

  /** The body of the inner loop: one field line. */
  method ReadField(dept: Department, line: string) returns (r: Result<Department, LoadError>)
    ensures r == ApplyField(dept, line)
  {
    var ln := FieldText(line);
    if StartsWith(ln, "name:") {
      return Ok(dept.(name := Some(Strip(ln[5..]))));
    } else if StartsWith(ln, "phone:") {
      return Ok(dept.(phone := Some(Strip(ln[6..]))));
    } else if StartsWith(ln, "address:") {
      return Ok(dept.(address := Some(Strip(ln[8..]))));
    } else if StartsWith(ln, "hours:") {
      var hoursRaw := Strip(ln[6..]);
      var rules := ParseHours(hoursRaw);
      if rules.Err? {
        return Err(rules.error);
      }
      return Ok(dept.(hoursRaw := Some(hoursRaw), hours := Some(rules.value)));
    }
    return Ok(dept);
  }

  // ----- what the reader produces, stated line by line -----

  /** What the reader's branches look at in one line. */
  datatype LineKind = LineKind(
    header: Option<Section>,  // a section header, and which
    item: bool,               // starts with `- `
    detail: bool,             // holds `certification:` or `specialty:`
    head: bool,               // a department head
    field: bool)              // a department field

  function KindOf(line: string): LineKind
  {
    LineKind(Header(line), StartsWith(line, "- "),
      Contains(line, "certification:") || Contains(line, "specialty:"),
      IsDeptHead(line), IsDeptField(line))
  }

  /** Line `k` is classified by its kind. */
  predicate KindAt(lines: seq<string>, ks: seq<LineKind>, k: int)
  {
    0 <= k < |lines| && k < |ks| && ks[k] == KindOf(lines[k])
  }

  /** `ks` classifies `lines` line by line. */
  predicate Classified(lines: seq<string>, ks: seq<LineKind>)
  {
    |ks| == |lines| && forall k :: 0 <= k < |lines| ==> KindAt(lines, ks, k)
  }

  /** No field line is a header. */
  predicate Coherent(ks: seq<LineKind>)
  {
    forall k :: 0 <= k < |ks| && ks[k].field ==> ks[k].header.None?
  }

  /** The section in force at line `n`: the one the last header above it names. */
  function SectionAt(ks: seq<LineKind>, n: nat): Section
    requires n <= |ks|
  {
    if n == 0 then Unsectioned
    else match ks[n - 1].header
      case Some(sec) => sec
      case None => SectionAt(ks, n - 1)
  }

  /** Line `k` is read as a department head. */
  predicate OpensDept(ks: seq<LineKind>, k: nat)
    requires k < |ks|
  {
    SectionAt(ks, k) == ProviderDirectory && ks[k].header.None? && !ks[k].item && !ks[k].detail && ks[k].head
  }

  /** Line `k` is swallowed by the department block above it. */
  predicate Absorbed(ks: seq<LineKind>, k: nat)
    requires k < |ks|
  {
    k > 0 && ks[k].field && (OpensDept(ks, k - 1) || Absorbed(ks, k - 1))
  }

  /** Line `k` is a `- ` item of the insurance section. */
  predicate IsInsuranceItem(ks: seq<LineKind>, k: nat)
    requires k < |ks|
  {
    SectionAt(ks, k) == Insurances && ks[k].header.None? && ks[k].item
  }

  /** Line `k` is a line of the self-pay section. */
  predicate IsPriceLine(ks: seq<LineKind>, k: nat)
    requires k < |ks|
  {
    SectionAt(ks, k) == SelfPay && ks[k].header.None?
  }

  /** Line `k` starts a provider: a `- ` line of the directory that no department block swallowed. */
  predicate StartsProvider(ks: seq<LineKind>, k: nat)
    requires k < |ks|
  {
    SectionAt(ks, k) == ProviderDirectory && ks[k].header.None? && !Absorbed(ks, k) && ks[k].item
  }

  /** The insurance items among the first `n` lines, in order. */
  function InsuranceItems(lines: seq<string>, ks: seq<LineKind>, n: nat): seq<string>
    requires |ks| == |lines| && n <= |lines|
  {
    if n == 0 then []
    else InsuranceItems(lines, ks, n - 1) + (if IsInsuranceItem(ks, n - 1) then [ListItem(lines[n - 1])] else [])
  }

  /** The price table the well-formed self-pay items among the first `n` lines build, later items overriding. */
  function PriceTable(lines: seq<string>, ks: seq<LineKind>, n: nat): (t: seq<(string, real)>)
    requires |ks| == |lines| && n <= |lines|
    ensures UniqueKeys(t)
  {
    if n == 0 then []
    else
      var t := PriceTable(lines, ks, n - 1);
      if IsPriceLine(ks, n - 1) then
        match SelfPayItem(lines[n - 1])
        case Some((key, price)) => Assign(t, key, price)
        case None => t
      else t
  }

  /** The names on the provider-starting lines among the first `n`, in order. */
  function ProviderNames(lines: seq<string>, ks: seq<LineKind>, n: nat): seq<string>
    requires |ks| == |lines| && n <= |lines|
  {
    if n == 0 then []
    else ProviderNames(lines, ks, n - 1) + (if StartsProvider(ks, n - 1) then [ListItem(lines[n - 1])] else [])
  }

  function Names(ps: seq<Provider>): (names: seq<string>)
    ensures |names| == |ps|
  {
    seq(|ps|, k requires 0 <= k < |ps| => ps[k].name)
  }

  /** The first characters of a stripped line of each kind. */
  lemma PrefixChar(t: string, p: string, k: nat)
    requires StartsWith(t, p) && k < |p|
    ensures k < |t| && t[k] == p[k]
  {
    assert t[..|p|][k] == p[k];
  }

  lemma HeaderLead(line: string)
    requires Header(line).Some?
    ensures var t := Strip(line); |t| > 0 && (t[0] == 'P' || t[0] == 'A' || t[0] == 'S')
  {
    var t := Strip(line);
    if t == "Provider Directory" {
    } else if StartsWith(t, "Appointments:") {
      PrefixChar(t, "Appointments:", 0);
    } else if StartsWith(t, "Accepted Insurances:") {
      PrefixChar(t, "Accepted Insurances:", 0);
    } else {
      PrefixChar(t, "Self-pay:", 0);
    }
  }

  /** A field line starts with n, p, a or h, possibly after `- `. */
  predicate FieldLead(t: string)
  {
    |t| > 2 && (t[0] in "npah" || (t[0] == '-' && t[2] in "npah"))
  }

  lemma PrefixLead(t: string, p: string)
    requires StartsWith(t, p) && |p| > 2 && (p[0] in "npah" || (p[0] == '-' && p[2] in "npah"))
    ensures FieldLead(t)
  {
    PrefixChar(t, p, 0);
    PrefixChar(t, p, 2);
  }

  lemma DashedFieldLead(t: string)
    requires StartsWith(t, "- name") || StartsWith(t, "- phone") || StartsWith(t, "- address") || StartsWith(t, "- hours")
    ensures FieldLead(t)
  {
    if StartsWith(t, "- name") { PrefixLead(t, "- name"); }
    else if StartsWith(t, "- phone") { PrefixLead(t, "- phone"); }
    else if StartsWith(t, "- address") { PrefixLead(t, "- address"); }
    else { PrefixLead(t, "- hours"); }
  }

  lemma BareFieldLead(t: string)
    requires StartsWith(t, "name") || StartsWith(t, "phone") || StartsWith(t, "address") || StartsWith(t, "hours")
    ensures FieldLead(t)
  {
    if StartsWith(t, "name") { PrefixLead(t, "name"); }
    else if StartsWith(t, "phone") { PrefixLead(t, "phone"); }
    else if StartsWith(t, "address") { PrefixLead(t, "address"); }
    else { PrefixLead(t, "hours"); }
  }

  lemma FieldLeadOf(line: string)
    requires IsDeptField(line)
    ensures FieldLead(Strip(line))
  {
    var t := Strip(line);
    if StartsWith(t, "- name") || StartsWith(t, "- phone") || StartsWith(t, "- address") || StartsWith(t, "- hours") {
      DashedFieldLead(t);
    } else {
      BareFieldLead(t);
    }
  }

  /** A department field line is never a header: headers start with P, A or S. */
  lemma FieldIsNotHeader(line: string)
    ensures IsDeptField(line) ==> Header(line).None?
  {
    if IsDeptField(line) && Header(line).Some? {
      FieldLeadOf(line);
      HeaderLead(line);
      assert false;
    }
  }

  lemma ClassifiedCoherent(lines: seq<string>, ks: seq<LineKind>)
    requires Classified(lines, ks)
    ensures Coherent(ks)
  {
    forall k | 0 <= k < |ks| && ks[k].field
      ensures ks[k].header.None?
    {
      assert KindAt(lines, ks, k);
      FieldIsNotHeader(lines[k]);
    }
  }

  /** A swallowed line lies in the provider directory and is not a header. */
  lemma {:induction false} AbsorbedInDirectory(ks: seq<LineKind>, k: nat)
    requires k < |ks| && Coherent(ks) && Absorbed(ks, k)
    ensures SectionAt(ks, k) == ProviderDirectory && ks[k].header.None?
  {
    if !OpensDept(ks, k - 1) {
      AbsorbedInDirectory(ks, k - 1);
    }
  }

  /** Each field line after a department head is swallowed. */
  lemma {:induction false} BlockAbsorbed(ks: seq<LineKind>, i: nat, k: nat)
    requires i < k < |ks| && OpensDept(ks, i)
    requires forall m :: i < m <= k ==> ks[m].field
    ensures Absorbed(ks, k)
    decreases k
  {
    if k > i + 1 {
      BlockAbsorbed(ks, i, k - 1);
    }
  }

  /** A swallowed line contributes nothing to the description and keeps the section. */
  lemma AbsorbedSkipped(lines: seq<string>, ks: seq<LineKind>, k: nat)
    requires |ks| == |lines| && k < |lines| && Coherent(ks) && Absorbed(ks, k)
    ensures InsuranceItems(lines, ks, k + 1) == InsuranceItems(lines, ks, k)
    ensures PriceTable(lines, ks, k + 1) == PriceTable(lines, ks, k)
    ensures ProviderNames(lines, ks, k + 1) == ProviderNames(lines, ks, k)
    ensures SectionAt(ks, k + 1) == SectionAt(ks, k)
  {
    AbsorbedInDirectory(ks, k);
  }

  /** A department block contributes nothing to the description and keeps the section. */
  lemma {:induction false} BlockContributesNothing(lines: seq<string>, ks: seq<LineKind>, i: nat, j: nat)
    requires |ks| == |lines| && i < j <= |lines| && Coherent(ks) && OpensDept(ks, i)
    requires forall m :: i < m < j ==> ks[m].field
    ensures InsuranceItems(lines, ks, j) == InsuranceItems(lines, ks, i + 1)
    ensures PriceTable(lines, ks, j) == PriceTable(lines, ks, i + 1)
    ensures ProviderNames(lines, ks, j) == ProviderNames(lines, ks, i + 1)
    ensures SectionAt(ks, j) == SectionAt(ks, i + 1)
    decreases j
  {
    if j > i + 1 {
      BlockContributesNothing(lines, ks, i, j - 1);
      BlockAbsorbed(ks, i, j - 1);
      AbsorbedSkipped(lines, ks, j - 1);
    }
  }

  /** The reader's state after line `i` agrees with the line-by-line description of the first `i` lines. */
  predicate Tracks(lines: seq<string>, ks: seq<LineKind>, i: nat, st: ScanState)
    requires |ks| == |lines| && i <= |lines|
  {
    && st.section == SectionAt(ks, i)
    && st.accepted == InsuranceItems(lines, ks, i)
    && st.selfPay == PriceTable(lines, ks, i)
    && Names(Flushed(st)) == ProviderNames(lines, ks, i)
    && (i < |lines| ==> !Absorbed(ks, i))
  }

  lemma NamesAppend(ps: seq<Provider>, p: Provider)
    ensures Names(ps + [p]) == Names(ps) + [p.name]
  {
  }

  lemma NamesSameLast(ps: seq<Provider>, p: Provider, q: Provider)
    requires p.name == q.name
    ensures Names(ps + [p]) == Names(ps + [q])
  {
    NamesAppend(ps, p);
    NamesAppend(ps, q);
  }

  /** A line that starts no provider, adds no plan, no price and no header, and opens no block. */
  lemma PlainLineTracks(lines: seq<string>, ks: seq<LineKind>, i: nat, st: ScanState, next: ScanState)
    requires |ks| == |lines| && i < |lines| && Tracks(lines, ks, i, st) && ks[i].header.None?
    requires !IsInsuranceItem(ks, i) && !StartsProvider(ks, i) && !OpensDept(ks, i)
    requires !IsPriceLine(ks, i) || SelfPayItem(lines[i]).None?
    requires next.section == st.section && next.accepted == st.accepted && next.selfPay == st.selfPay
    requires Names(Flushed(next)) == Names(Flushed(st))
    ensures Tracks(lines, ks, i + 1, next)
  {
  }

  lemma HeaderTracks(lines: seq<string>, ks: seq<LineKind>, i: nat, st: ScanState)
    requires Classified(lines, ks) && i < |lines| && Tracks(lines, ks, i, st) && Header(lines[i]).Some?
    ensures Tracks(lines, ks, i + 1, st.(section := Header(lines[i]).value))
  {
    assert KindAt(lines, ks, i);
    FieldIsNotHeader(lines[i]);
  }

  lemma InsuranceTracks(lines: seq<string>, ks: seq<LineKind>, i: nat, st: ScanState)
    requires Classified(lines, ks) && i < |lines|
    requires Tracks(lines, ks, i, st) && Header(lines[i]).None? && st.section == Insurances
    ensures Tracks(lines, ks, i + 1, InsuranceStep(st, lines[i]))
  {
    assert KindAt(lines, ks, i);
    var next := InsuranceStep(st, lines[i]);
    assert next.section == SectionAt(ks, i + 1);
    assert next.accepted == InsuranceItems(lines, ks, i + 1);
    assert next.selfPay == PriceTable(lines, ks, i + 1);
    assert Names(Flushed(next)) == ProviderNames(lines, ks, i + 1);
    assert i + 1 < |lines| ==> !Absorbed(ks, i + 1);
  }

  lemma PriceTracks(lines: seq<string>, ks: seq<LineKind>, i: nat, st: ScanState)
    requires Classified(lines, ks) && i < |lines| && UniqueKeys(st.selfPay)
    requires Tracks(lines, ks, i, st) && Header(lines[i]).None? && st.section == SelfPay
    ensures Tracks(lines, ks, i + 1, SelfPayStep(st, lines[i]))
  {
    assert KindAt(lines, ks, i);
    var next := SelfPayStep(st, lines[i]);
    assert IsPriceLine(ks, i) && !OpensDept(ks, i) && !StartsProvider(ks, i) && !IsInsuranceItem(ks, i);
    assert next.section == SectionAt(ks, i + 1);
    assert next.accepted == InsuranceItems(lines, ks, i + 1);
    assert next.selfPay == PriceTable(lines, ks, i + 1);
    assert Names(Flushed(next)) == ProviderNames(lines, ks, i + 1);
    assert i + 1 < |lines| ==> !Absorbed(ks, i + 1);
  }

  /** Outside the directory, insurance and self-pay sections a line changes nothing. */
  lemma IdleTracks(lines: seq<string>, ks: seq<LineKind>, i: nat, st: ScanState)
    requires Classified(lines, ks) && i < |lines|
    requires Tracks(lines, ks, i, st) && Header(lines[i]).None?
    requires st.section == Unsectioned || st.section == AppointmentsMeta
    ensures Tracks(lines, ks, i + 1, st)
  {
    assert KindAt(lines, ks, i);
    PlainLineTracks(lines, ks, i, st, st);
  }

  lemma NewProviderTracks(lines: seq<string>, ks: seq<LineKind>, i: nat, st: ScanState)
    requires Classified(lines, ks) && i < |lines|
    requires Tracks(lines, ks, i, st) && Header(lines[i]).None? && st.section == ProviderDirectory
    requires StartsWith(lines[i], "- ")
    ensures Tracks(lines, ks, i + 1, st.(providers := Flushed(st), current := Some(Provider(ListItem(lines[i]), None, None, []))))
  {
    assert KindAt(lines, ks, i);
    assert ks[i].header.None? && ks[i].item;
    assert SectionAt(ks, i + 1) == ProviderDirectory;
    assert InsuranceItems(lines, ks, i + 1) == InsuranceItems(lines, ks, i);
    assert PriceTable(lines, ks, i + 1) == PriceTable(lines, ks, i);
    assert StartsProvider(ks, i);
    assert ProviderNames(lines, ks, i + 1) == ProviderNames(lines, ks, i) + [ListItem(lines[i])];
    NamesAppend(Flushed(st), Provider(ListItem(lines[i]), None, None, []));
  }

  lemma SameNameTracks(lines: seq<string>, ks: seq<LineKind>, i: nat, st: ScanState, p: Provider)
    requires Classified(lines, ks) && i < |lines|
    requires Tracks(lines, ks, i, st) && Header(lines[i]).None? && st.section == ProviderDirectory
    requires !StartsWith(lines[i], "- ") && !OpensDept(ks, i)
    requires st.current.Some? && p.name == st.current.value.name
    ensures Tracks(lines, ks, i + 1, st.(current := Some(p)))
  {
    assert KindAt(lines, ks, i);
    NamesSameLast(st.providers, st.current.value, p);
    PlainLineTracks(lines, ks, i, st, st.(current := Some(p)));
  }

  lemma DeptTracks(lines: seq<string>, ks: seq<LineKind>, i: nat, j: nat, st: ScanState, p: Provider)
    requires Classified(lines, ks) && i < j <= |lines| && Tracks(lines, ks, i, st) && OpensDept(ks, i)
    requires forall m :: i < m < j ==> IsDeptField(lines[m])
    requires j == |lines| || !IsDeptField(lines[j])
    requires st.current.Some? && p.name == st.current.value.name
    ensures Tracks(lines, ks, j, st.(current := Some(p)))
  {
    ClassifiedCoherent(lines, ks);
    var next := st.(current := Some(p));
    assert SectionAt(ks, i + 1) == ProviderDirectory;
    assert InsuranceItems(lines, ks, i + 1) == st.accepted;
    assert PriceTable(lines, ks, i + 1) == st.selfPay;
    assert ProviderNames(lines, ks, i + 1) == Names(Flushed(st));
    NamesSameLast(st.providers, st.current.value, p);
    forall m | i < m < j
      ensures ks[m].field
    {
      assert KindAt(lines, ks, m);
    }
    BlockContributesNothing(lines, ks, i, j);
    if j < |lines| {
      assert KindAt(lines, ks, j);
    }
    assert next.section == SectionAt(ks, j);
    assert next.accepted == InsuranceItems(lines, ks, j);
    assert next.selfPay == PriceTable(lines, ks, j);
    assert Names(Flushed(next)) == ProviderNames(lines, ks, j);
  }

  /** A line of the directory keeps the state in step with the description. */
  lemma ProviderTracks(lines: seq<string>, ks: seq<LineKind>, i: nat, st: ScanState)
    requires Classified(lines, ks) && i < |lines| && Tracks(lines, ks, i, st) && Header(lines[i]).None?
    requires st.section == ProviderDirectory && ProviderStep(lines, i, st).Ok?
    ensures Tracks(lines, ks, ProviderStep(lines, i, st).value.1, ProviderStep(lines, i, st).value.0)
  {
    var line := lines[i];
    if StartsWith(line, "- ") {
      NewProviderTracks(lines, ks, i, st);
      assert ProviderStep(lines, i, st).value == (st.(providers := Flushed(st), current := Some(Provider(ListItem(line), None, None, []))), i + 1);
    } else if Contains(line, "certification:") || Contains(line, "specialty:") {
      DetailLineTracks(lines, ks, i, st);
    } else if IsDeptHead(line) {
      DeptHeadTracks(lines, ks, i, st);
    } else {
      assert KindAt(lines, ks, i);
      assert ProviderStep(lines, i, st).value == (st, i + 1);
      PlainLineTracks(lines, ks, i, st, st);
    }
  }

  /** A `certification:` or `specialty:` line keeps the state in step. */
  lemma DetailLineTracks(lines: seq<string>, ks: seq<LineKind>, i: nat, st: ScanState)
    requires Classified(lines, ks) && i < |lines| && Tracks(lines, ks, i, st) && Header(lines[i]).None?
    requires st.section == ProviderDirectory && ProviderStep(lines, i, st).Ok?
    requires !StartsWith(lines[i], "- ") && (Contains(lines[i], "certification:") || Contains(lines[i], "specialty:"))
    ensures Tracks(lines, ks, ProviderStep(lines, i, st).value.1, ProviderStep(lines, i, st).value.0)
  {
    assert KindAt(lines, ks, i);
    var (next, j) := ProviderStep(lines, i, st).value;
    assert !OpensDept(ks, i);
    assert j == i + 1 && next == st.(current := next.current) && next.current.value.name == st.current.value.name;
    SameNameTracks(lines, ks, i, st, next.current.value);
  }

  /** A department head and the block it absorbs keep the state in step. */
  lemma DeptHeadTracks(lines: seq<string>, ks: seq<LineKind>, i: nat, st: ScanState)
    requires Classified(lines, ks) && i < |lines| && Tracks(lines, ks, i, st) && Header(lines[i]).None?
    requires st.section == ProviderDirectory && ProviderStep(lines, i, st).Ok?
    requires !StartsWith(lines[i], "- ") && !Contains(lines[i], "certification:") && !Contains(lines[i], "specialty:")
    requires IsDeptHead(lines[i])
    ensures Tracks(lines, ks, ProviderStep(lines, i, st).value.1, ProviderStep(lines, i, st).value.0)
  {
    assert KindAt(lines, ks, i);
    var (next, j) := ProviderStep(lines, i, st).value;
    assert OpensDept(ks, i);
    var (dept, j') := DeptFrom(lines, i + 1, NoFields).value;
    assert j == j' && next == st.(current := next.current) && next.current.value.name == st.current.value.name;
    DeptTracks(lines, ks, i, j, st, next.current.value);
  }

  /** A line that is not a header is read by the section in force and keeps the state in step. */
  lemma BodyTracks(lines: seq<string>, ks: seq<LineKind>, i: nat, st: ScanState)
    requires Classified(lines, ks) && i < |lines| && UniqueKeys(st.selfPay) && Tracks(lines, ks, i, st)
    requires Header(lines[i]).None? && Step(lines, i, st).Ok?
    ensures Tracks(lines, ks, Step(lines, i, st).value.1, Step(lines, i, st).value.0)
  {
    match st.section
    case ProviderDirectory =>
      ProviderTracks(lines, ks, i, st);
      assert Step(lines, i, st) == ProviderStep(lines, i, st);
    case Insurances =>
      InsuranceTracks(lines, ks, i, st);
      assert Step(lines, i, st) == Ok((InsuranceStep(st, lines[i]), i + 1));
    case SelfPay =>
      PriceTracks(lines, ks, i, st);
      assert Step(lines, i, st) == Ok((SelfPayStep(st, lines[i]), i + 1));
    case _ =>
      IdleTracks(lines, ks, i, st);
      assert Step(lines, i, st) == Ok((st, i + 1));
  }

  /** Every step of the reader keeps its state in step with the description. */
  lemma StepTracks(lines: seq<string>, ks: seq<LineKind>, i: nat, st: ScanState)
    requires Classified(lines, ks) && i < |lines| && UniqueKeys(st.selfPay) && Tracks(lines, ks, i, st)
    requires Step(lines, i, st).Ok?
    ensures Tracks(lines, ks, Step(lines, i, st).value.1, Step(lines, i, st).value.0)
  {
    if Header(lines[i]).Some? {
      HeaderTracks(lines, ks, i, st);
    } else {
      BodyTracks(lines, ks, i, st);
    }
  }

  lemma {:induction false} ScanTracks(lines: seq<string>, ks: seq<LineKind>, i: nat, st: ScanState)
    requires Classified(lines, ks) && i <= |lines| && UniqueKeys(st.selfPay) && Tracks(lines, ks, i, st)
    requires Scan(lines, i, st).Ok?
    ensures Scan(lines, i, st).value.acceptedInsurances == InsuranceItems(lines, ks, |lines|)
    ensures Scan(lines, i, st).value.selfPay == PriceTable(lines, ks, |lines|)
    ensures Names(Scan(lines, i, st).value.providers) == ProviderNames(lines, ks, |lines|)
    decreases |lines| - i
  {
    if i < |lines| {
      StepTracks(lines, ks, i, st);
      var (next, j) := Step(lines, i, st).value;
      ScanTracks(lines, ks, j, next);
    }
  }

  /** Each line's kind, in order. */
  function Kinds(lines: seq<string>): (ks: seq<LineKind>)
    ensures Classified(lines, ks)
  {
    seq(|lines|, k requires 0 <= k < |lines| => KindOf(lines[k]))
  }

  /** When the data sheet reads without error: the accepted plans are the `- ` items of the
      insurance section in order; the prices are those of the well-formed self-pay items, a
      later item for the same specialty overriding an earlier one; and the providers are
      named by the directory's `- ` lines that no department block swallowed, in file order. */
  lemma LoadHospitalContents(raw: seq<string>)
    requires LoadHospital(raw).Ok?
    ensures var lines := Lines(raw); var ks := Kinds(lines);
      && LoadHospital(raw).value.acceptedInsurances == InsuranceItems(lines, ks, |lines|)
      && LoadHospital(raw).value.selfPay == PriceTable(lines, ks, |lines|)
      && Names(LoadHospital(raw).value.providers) == ProviderNames(lines, ks, |lines|)
  {
    var lines := Lines(raw);
    var ks := Kinds(lines);
    assert Tracks(lines, ks, 0, Init);
    ScanTracks(lines, ks, 0, Init);
  }
}
