/**
 * The rule-based part of `analyze_health` in app.py: the free-text short cut, the
 * seven threshold rules that build `flags`, and the `info_lines` summary handed to
 * the language model. The model call itself is outside this module.
 */
module Analysis {
  import opened Wrappers
  import opened Conversions
  import Text

  /** The JSON body of a POST to /api/health/analyze, one field per key that is read. */
  datatype Request = Request(
    freeText: string,
    extraNotes: string,
    gender: Raw,
    heightCm: Raw,
    weightKg: Raw,
    sleepHours: Raw,
    alcohol: Raw,
    smoking: Raw,
    systolic: Raw,
    diastolic: Raw,
    heartRate: Raw,
    bloodSugar: Raw,
    temperatureC: Raw,
    bmi: Raw,
    symptoms: seq<string>)

  /** The converted values the rules look at. */
  datatype Vitals = Vitals(
    temperature: Option<real>,
    heartRate: Option<int>,
    systolic: Option<int>,
    diastolic: Option<int>,
    bloodSugar: Option<real>,
    bmi: Bmi,
    symptoms: seq<string>)

  /**
   * The conversions at the top of the `try` block: int() for the pulse and the pressure
   * readings, float() for temperature and sugar. A truthy `bmi` is kept as sent, so a
   * string stays text; a falsy one is recomputed from height and weight.
   */
  function VitalsOf(req: Request): (v: Vitals)
    ensures v.bmi.Textual? <==> req.bmi.Text? && req.bmi.s != ""
    ensures !Truthy(req.bmi) ==> (v.bmi.Numeric? <==> CalcBmi(req.heightCm, req.weightKg).Some?)
    ensures v.symptoms == req.symptoms
  {
    Vitals(
      ToFloat(req.temperatureC),
      ToInt(req.heartRate),
      ToInt(req.systolic),
      ToInt(req.diastolic),
      ToFloat(req.bloodSugar),
      EffectiveBmi(req.bmi, req.heightCm, req.weightKg),
      req.symptoms)
  }

  /** The warning flags, one per rule. */
  datatype Flag = Fever | AbnormalPulse | HighPressure | LowPressure | HighSugar | Obesity | CardioLungRisk

  /** The text the response carries for each flag. */
  function Label(f: Flag): string
  {
    match f
    case Fever => "ไข้สูง (≥38°C)"
    case AbnormalPulse => "ชีพจรผิดปกติ"
    case HighPressure => "ความดันสูง (≥140/90)"
    case LowPressure => "ความดันต่ำ (<90/60)"
    case HighSugar => "น้ำตาลสูง (≥180 mg/dL)"
    case Obesity => "BMI อ้วนระดับ 2 (≥30)"
    case CardioLungRisk => "อาการเสี่ยงหัวใจ/ปอด ควรพบแพทย์ทันที"
  }

  const ChestPain := "เจ็บหน้าอก"
  const Breathless := "หายใจลำบาก"
  const Palpitations := "ใจสั่น"

  /** The order in which the rules are evaluated. */
  const RuleOrder: seq<Flag> := [Fever, AbnormalPulse, HighPressure, LowPressure, HighSugar, Obesity, CardioLungRisk]

  /** The position of a rule in `RuleOrder`. */
  function Rank(f: Flag): (k: nat)
    ensures k < |RuleOrder| && RuleOrder[k] == f
  {
    match f
    case Fever => 0
    case AbnormalPulse => 1
    case HighPressure => 2
    case LowPressure => 3
    case HighSugar => 4
    case Obesity => 5
    case CardioLungRisk => 6
  }

  /**
   * The condition of each rule. The pressure rules test the readings for truthiness,
   * so an absent or zero systolic or diastolic value never contributes.
   */
  predicate Fires(f: Flag, v: Vitals)
    ensures Fires(f, v) && (f == HighPressure || f == LowPressure) ==> TruthyInt(v.systolic) || TruthyInt(v.diastolic)
    ensures Fires(f, v) && f == Obesity ==> v.bmi.Numeric?
  {
    match f
    case Fever => v.temperature.Some? && v.temperature.value >= 38.0
    case AbnormalPulse => v.heartRate.Some? && (v.heartRate.value > 100 || v.heartRate.value < 50)
    case HighPressure =>
      (TruthyInt(v.systolic) && v.systolic.value >= 140) || (TruthyInt(v.diastolic) && v.diastolic.value >= 90)
    case LowPressure =>
      (TruthyInt(v.systolic) && v.systolic.value < 90) || (TruthyInt(v.diastolic) && v.diastolic.value < 60)
    case HighSugar => v.bloodSugar.Some? && v.bloodSugar.value >= 180.0
    case Obesity => v.bmi.Numeric? && v.bmi.value >= 30.0
    case CardioLungRisk => ChestPain in v.symptoms && (Breathless in v.symptoms || Palpitations in v.symptoms)
  }

  /**
   * The rules that run to completion. A `bmi` that arrived as text makes `bmi >= 30`
   * raise TypeError; the `except` clause keeps what was collected, so the BMI rule
   * and every rule after it are skipped.
   */
  function Evaluated(v: Vitals): seq<Flag>
  {
    if v.bmi.Textual? then RuleOrder[..5] else RuleOrder
  }

  /** `flags` after evaluating rule `f`: its flag is appended when its condition holds. */
  function Step(flags: seq<Flag>, f: Flag, v: Vitals): seq<Flag>
  {
    flags + (if Fires(f, v) then [f] else [])
  }

  /** The rules of `rules` whose condition holds, in the order of `rules`. */
  function FilterRules(rules: seq<Flag>, v: Vitals): (r: seq<Flag>)
    ensures |r| <= |rules|
  {
    if rules == [] then []
    else
      Step(FilterRules(rules[..|rules| - 1], v), rules[|rules| - 1], v)
  }

  /** The `flags` list of a form submission. */
  function Flags(v: Vitals): seq<Flag>
  {
    FilterRules(Evaluated(v), v)
  }

  /** Rules appear in strictly increasing rule order. */
  predicate Increasing(s: seq<Flag>)
  {
    forall i, j :: 0 <= i < j < |s| ==> Rank(s[i]) < Rank(s[j])
  }

  lemma {:induction false} FilterMembership(rules: seq<Flag>, v: Vitals, f: Flag)
    ensures f in FilterRules(rules, v) <==> f in rules && Fires(f, v)
  {
    if rules != [] {
      var init := rules[..|rules| - 1];
      FilterMembership(init, v, f);
      assert rules == init + [rules[|rules| - 1]];
    }
  }

  lemma {:induction false} FilterOrdered(rules: seq<Flag>, v: Vitals)
    requires Increasing(rules)
    ensures Increasing(FilterRules(rules, v))
  {
    if rules != [] {
      var init := rules[..|rules| - 1];
      var last := rules[|rules| - 1];
      FilterOrdered(init, v);
      var done := FilterRules(init, v);
      forall i | 0 <= i < |done| ensures Rank(done[i]) < Rank(last) {
        FilterMembership(init, v, done[i]);
      }
    }
  }

  /** The filter over the rule order, one rule at a time. */
  lemma FlagsUnrolled(v: Vitals)
    ensures var first := Step(Step(Step(Step(Step([], Fever, v), AbnormalPulse, v), HighPressure, v), LowPressure, v), HighSugar, v);
      Flags(v) == if v.bmi.Textual? then first else Step(Step(first, Obesity, v), CardioLungRisk, v)
  {
    var r := RuleOrder;
    assert FilterRules(r[..0], v) == [];
    assert r[..1][..0] == r[..0];
    assert FilterRules(r[..1], v) == Step([], Fever, v);
    assert r[..2][..1] == r[..1];
    assert FilterRules(r[..2], v) == Step(FilterRules(r[..1], v), AbnormalPulse, v);
    assert r[..3][..2] == r[..2];
    assert FilterRules(r[..3], v) == Step(FilterRules(r[..2], v), HighPressure, v);
    assert r[..4][..3] == r[..3];
    assert FilterRules(r[..4], v) == Step(FilterRules(r[..3], v), LowPressure, v);
    assert r[..5][..4] == r[..4];
    assert FilterRules(r[..5], v) == Step(FilterRules(r[..4], v), HighSugar, v);
    assert r[..6][..5] == r[..5];
    assert FilterRules(r[..6], v) == Step(FilterRules(r[..5], v), Obesity, v);
    assert r[..7][..6] == r[..6];
    assert r[..7] == r;
    assert FilterRules(r, v) == Step(FilterRules(r[..6], v), CardioLungRisk, v);
  }

  lemma {:induction false} FilterCongruent(rules: seq<Flag>, v: Vitals, w: Vitals)
    requires forall f :: Fires(f, v) == Fires(f, w)
    ensures FilterRules(rules, v) == FilterRules(rules, w)
  {
    if rules != [] {
      FilterCongruent(rules[..|rules| - 1], v, w);
    }
  }

  /** A flag is reported exactly when its rule runs to completion and its condition holds. */
  lemma FlagIn(v: Vitals, f: Flag)
    ensures f in Flags(v) <==> (Rank(f) < 5 || !v.bmi.Textual?) && Fires(f, v)
  {
    FilterMembership(Evaluated(v), v, f);
    assert RuleOrder[..5] == [Fever, AbnormalPulse, HighPressure, LowPressure, HighSugar];
    assert RuleOrder[Rank(f)] == f;
  }

  /**
   * What each rule promises: a flag is reported exactly when its condition holds (the
   * BMI and cardio/lung rules only when `bmi` did not arrive as text), in rule order,
   * each at most once, at most seven in all.
   */
  lemma FlagsMeaning(v: Vitals)
    ensures Fever in Flags(v) <==> v.temperature.Some? && v.temperature.value >= 38.0
    ensures AbnormalPulse in Flags(v) <==> v.heartRate.Some? && (v.heartRate.value > 100 || v.heartRate.value < 50)
    ensures HighPressure in Flags(v) <==>
      (v.systolic.Some? && v.systolic.value != 0 && v.systolic.value >= 140) ||
      (v.diastolic.Some? && v.diastolic.value != 0 && v.diastolic.value >= 90)
    ensures LowPressure in Flags(v) <==>
      (v.systolic.Some? && v.systolic.value != 0 && v.systolic.value < 90) ||
      (v.diastolic.Some? && v.diastolic.value != 0 && v.diastolic.value < 60)
    ensures HighSugar in Flags(v) <==> v.bloodSugar.Some? && v.bloodSugar.value >= 180.0
    ensures Obesity in Flags(v) <==> v.bmi.Numeric? && v.bmi.value >= 30.0
    ensures CardioLungRisk in Flags(v) <==>
      !v.bmi.Textual? && ChestPain in v.symptoms && (Breathless in v.symptoms || Palpitations in v.symptoms)
    ensures Increasing(Flags(v))
    ensures forall i, j :: 0 <= i < j < |Flags(v)| ==> Flags(v)[i] != Flags(v)[j]
    ensures |Flags(v)| <= 7
  {
    FlagIn(v, Fever);
    FlagIn(v, AbnormalPulse);
    FlagIn(v, HighPressure);
    FlagIn(v, LowPressure);
    FlagIn(v, HighSugar);
    FlagIn(v, Obesity);
    FlagIn(v, CardioLungRisk);
    FilterOrdered(Evaluated(v), v);
  }

  /** A systolic reading of 0 counts as no reading; so does a diastolic reading of 0. */
  lemma ZeroPressureIgnored(v: Vitals)
    ensures Flags(v.(systolic := Some(0))) == Flags(v.(systolic := None))
    ensures Flags(v.(diastolic := Some(0))) == Flags(v.(diastolic := None))
  {
    FilterCongruent(Evaluated(v), v.(systolic := Some(0)), v.(systolic := None));
    FilterCongruent(Evaluated(v), v.(diastolic := Some(0)), v.(diastolic := None));
  }

  /** The two pressure rules are not exclusive: 150/50 raises both. */
  lemma HighAndLowTogether(v: Vitals)
    requires v.systolic == Some(150) && v.diastolic == Some(50)
    ensures HighPressure in Flags(v) && LowPressure in Flags(v)
  {
    FlagsMeaning(v);
  }

  /** A `bmi` sent as text hides the BMI and the cardio/lung flags, whatever the symptoms. */
  lemma TextBmiSkipsLaterRules(v: Vitals)
    requires v.bmi.Textual?
    ensures Obesity !in Flags(v) && CardioLungRisk !in Flags(v)
    ensures forall f :: Rank(f) < 5 ==> (f in Flags(v) <==> Fires(f, v))
  {
    FlagIn(v, Obesity);
    FlagIn(v, CardioLungRisk);
    forall f | Rank(f) < 5 ensures f in Flags(v) <==> Fires(f, v) {
      FlagIn(v, f);
    }
  }

  /** One displayed value of the summary: a raw or converted value, or a placeholder. */
  datatype Cell = RawCell(raw: Raw) | IntCell(i: int) | RealCell(x: real) | TextCell(s: string) | Placeholder(text: string)

  const Unspecified := "ไม่ระบุ"
  const Dash := "-"

  /** `value or placeholder` on a raw value. */
  function OrPlaceholder(v: Raw, placeholder: string): (c: Cell)
    ensures Truthy(v) ==> c == RawCell(v)
    ensures !Truthy(v) ==> c == Placeholder(placeholder)
  {
    if Truthy(v) then RawCell(v) else Placeholder(placeholder)
  }

  /** `value if value is not None else '-'`. */
  function IntOrDash(o: Option<int>): Cell { if o.Some? then IntCell(o.value) else Placeholder(Dash) }
  function RealOrDash(o: Option<real>): Cell { if o.Some? then RealCell(o.value) else Placeholder(Dash) }
  function BmiCell(b: Bmi): Cell
  {
    match b
    case NoBmi => Placeholder(Dash)
    case Numeric(x) => RealCell(x)
    case Textual(s) => TextCell(s)
  }

  /**
   * One line of `info_lines`. The nine fixed lines keep their values as cells; how
   * Python's f-strings print numbers is not modelled. The symptom, note and flag lines
   * are plain text and are kept as text.
   */
  datatype SummaryLine =
    | GenderLine(gender: Cell)
    | BodyLine(height: Cell, weight: Cell, bmi: Cell)
    | SleepLine(hours: Cell)
    | HabitsLine(alcohol: Cell, smoking: Cell)
    | PressureLine(systolic: Cell, diastolic: Cell)
    | PulseLine(heartRate: Cell)
    | SugarLine(bloodSugar: Cell)
    | TemperatureLine(temperature: Cell)
    | SymptomsLine(text: string)
    | NotesLine(text: string)
    | FlagsLine(text: string)

  function SymptomsText(symptoms: seq<string>): string
  {
    "อาการที่พบ: " + (if symptoms != [] then Text.Join(", ", symptoms) else Unspecified)
  }

  function NotesText(notes: string): string { "อาการเพิ่มเติม/บันทึก: " + notes }

  function Labels(flags: seq<Flag>): (r: seq<string>)
    ensures |r| == |flags| && forall i :: 0 <= i < |flags| ==> r[i] == Label(flags[i])
  {
    seq(|flags|, i requires 0 <= i < |flags| => Label(flags[i]))
  }

  function FlagsText(flags: seq<Flag>): string { "ธงเตือนเบื้องต้น: " + Text.Join(", ", Labels(flags)) }

  /** The nine lines every form summary starts with. */
  function FixedLines(req: Request, v: Vitals): (r: seq<SummaryLine>)
    ensures |r| == 9
    ensures forall i :: 0 <= i < |r| ==> !r[i].NotesLine? && !r[i].FlagsLine?
  {
    [ GenderLine(OrPlaceholder(req.gender, Unspecified)),
      BodyLine(OrPlaceholder(req.heightCm, Dash), OrPlaceholder(req.weightKg, Dash), BmiCell(v.bmi)),
      SleepLine(RealOrDash(ToFloat(req.sleepHours))),
      HabitsLine(OrPlaceholder(req.alcohol, Unspecified), OrPlaceholder(req.smoking, Unspecified)),
      PressureLine(IntOrDash(v.systolic), IntOrDash(v.diastolic)),
      PulseLine(IntOrDash(v.heartRate)),
      SugarLine(RealOrDash(v.bloodSugar)),
      TemperatureLine(RealOrDash(v.temperature)),
      SymptomsLine(SymptomsText(v.symptoms)) ]
  }

  function Notes(req: Request): string { Text.Trim(req.extraNotes, Text.PyWhitespace) }

  /**
   * `info_lines`: the nine fixed lines, then the notes line when the stripped notes are
   * non-empty, then the flags line exactly when some flag was raised.
   */
  function Summary(req: Request, v: Vitals, notes: string, flags: seq<Flag>): (r: seq<SummaryLine>)
    ensures |r| == 9 + (if notes != "" then 1 else 0) + (if flags != [] then 1 else 0)
    ensures r[..9] == FixedLines(req, v)
    ensures forall i :: 0 <= i < 9 ==> !r[i].NotesLine? && !r[i].FlagsLine?
    ensures notes != "" <==> |r| > 9 && r[9] == NotesLine(NotesText(notes))
    ensures flags != [] <==> r[|r| - 1] == FlagsLine(FlagsText(flags))
  {
    var fixed := FixedLines(req, v);
    var withNotes := fixed + (if notes != "" then [NotesLine(NotesText(notes))] else []);
    var r := withNotes + (if flags != [] then [FlagsLine(FlagsText(flags))] else []);
    assert r[..9] == fixed;
    assert forall i :: 0 <= i < 9 ==> r[i] == fixed[i];
    assert notes != "" ==> r[9] == NotesLine(NotesText(notes));
    r
  }

  /** What the endpoint returns: an AI answer to free text (with no flags) or a form assessment. */
  datatype Response = AiAnswer(question: string) | Assessment(flags: seq<Flag>, summary: seq<SummaryLine>)

  /** The JSON `flags` field of a response. */
  function FlagsOf(r: Response): seq<Flag>
  {
    if r.AiAnswer? then [] else r.flags
  }

  /** `analyze_health` without the model call. */
  function Analyze(req: Request): (r: Response)
    ensures r.AiAnswer? <==> Text.Trim(req.freeText, Text.PyWhitespace) != ""
    ensures r.AiAnswer? ==> r.question == Text.Trim(req.freeText, Text.PyWhitespace)
    ensures r.Assessment? ==> r.flags == Flags(VitalsOf(req)) && |r.summary| >= 9
    ensures r.Assessment? ==> r.summary[..9] == FixedLines(req, VitalsOf(req))
  {
    var question := Text.Trim(req.freeText, Text.PyWhitespace);
    if question != "" then AiAnswer(question)
    else
      var v := VitalsOf(req);
      var flags := Flags(v);
      Assessment(flags, Summary(req, v, Notes(req), flags))
  }

  /** Free text that is not blank after stripping takes precedence: no flags, whatever the vitals. */
  lemma FreeTextMeansNoFlags(req: Request)
    requires exists i :: 0 <= i < |req.freeText| && req.freeText[i] !in Text.PyWhitespace
    ensures Analyze(req).AiAnswer? && FlagsOf(Analyze(req)) == []
  {
  }

  /** A blank free text gives a form assessment whose flags are those of the converted vitals. */
  lemma BlankFreeTextAssesses(req: Request)
    requires forall i :: 0 <= i < |req.freeText| ==> req.freeText[i] in Text.PyWhitespace
    ensures Analyze(req).Assessment?
    ensures FlagsOf(Analyze(req)) == Flags(VitalsOf(req))
  {
  }

  /** With blank free text the last summary line lists the flags exactly when some rule fired. */
  lemma BlankFreeTextSummaryEndsWithFlags(req: Request)
    requires forall i :: 0 <= i < |req.freeText| ==> req.freeText[i] in Text.PyWhitespace
    ensures Analyze(req).Assessment?
    ensures Analyze(req).summary[|Analyze(req).summary| - 1].FlagsLine? <==> Flags(VitalsOf(req)) != []
  {
  }

  /** One `if <condition>: flags.append(<label>)` of the `try` block. */
  method AppendIfFires(flags: seq<Flag>, f: Flag, v: Vitals) returns (r: seq<Flag>)
    ensures r == Step(flags, f, v)
    ensures Fires(f, v) ==> r == flags + [f]
    ensures !Fires(f, v) ==> r == flags
  {
    r := flags;
    if Fires(f, v) {
      r := r + [f];
    }
  }

  /**
   * The `try` block of `analyze_health`: one `append` per rule whose condition holds,
   * in rule order; a `bmi` that is text raises at the BMI rule and ends the block.
   */
  method CollectFlags(v: Vitals) returns (flags: seq<Flag>)
    ensures flags == Flags(v)
  {
    FlagsUnrolled(v);
    flags := [];
    flags := AppendIfFires(flags, Fever, v);
    flags := AppendIfFires(flags, AbnormalPulse, v);
    flags := AppendIfFires(flags, HighPressure, v);
    flags := AppendIfFires(flags, LowPressure, v);
    flags := AppendIfFires(flags, HighSugar, v);
    if v.bmi.Textual? {
      // `bmi >= 30` raises TypeError on a string and `except Exception: pass` keeps `flags`
      return;
    }
    flags := AppendIfFires(flags, Obesity, v);
    flags := AppendIfFires(flags, CardioLungRisk, v);
  }

  /**
   * `analyze_health` as written: converts the fields, appends a flag per rule that
   * fires and then the summary lines, one `append` at a time.
   */
  method AnalyzeHealth(req: Request) returns (resp: Response)
    ensures resp == Analyze(req)
  {
    var freeText := Text.Trim(req.freeText, Text.PyWhitespace);
    if freeText != "" {
      return AiAnswer(freeText);
    }
    var extraNotes := Text.Trim(req.extraNotes, Text.PyWhitespace);
    var systolic := ToInt(req.systolic);
    var diastolic := ToInt(req.diastolic);
    var heartRate := ToInt(req.heartRate);
    var bloodSugar := ToFloat(req.bloodSugar);
    var temperature := ToFloat(req.temperatureC);
    var sleepHours := ToFloat(req.sleepHours);
    var bmi: Bmi;
    if !Truthy(req.bmi) {
      var computed := CalcBmi(req.heightCm, req.weightKg);
      bmi := if computed.Some? then Numeric(computed.value) else NoBmi;
    } else {
      bmi := if req.bmi.Number? then Numeric(req.bmi.n) else Textual(req.bmi.s);
    }
    var symptoms := req.symptoms;
    var v := Vitals(temperature, heartRate, systolic, diastolic, bloodSugar, bmi, symptoms);
    assert v == VitalsOf(req);

    var flags := CollectFlags(v);

    var infoLines := [
      GenderLine(OrPlaceholder(req.gender, Unspecified)),
      BodyLine(OrPlaceholder(req.heightCm, Dash), OrPlaceholder(req.weightKg, Dash), BmiCell(bmi)),
      SleepLine(RealOrDash(sleepHours)),
      HabitsLine(OrPlaceholder(req.alcohol, Unspecified), OrPlaceholder(req.smoking, Unspecified)),
      PressureLine(IntOrDash(systolic), IntOrDash(diastolic)),
      PulseLine(IntOrDash(heartRate)),
      SugarLine(RealOrDash(bloodSugar)),
      TemperatureLine(RealOrDash(temperature)),
      SymptomsLine(SymptomsText(symptoms))
    ];
    if extraNotes != "" {
      infoLines := infoLines + [NotesLine(NotesText(extraNotes))];
    }
    if flags != [] {
      infoLines := infoLines + [FlagsLine(FlagsText(flags))];
    }
    assert infoLines == Summary(req, v, extraNotes, flags);
    resp := Assessment(flags, infoLines);
  }
}
