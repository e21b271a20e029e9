/** The QC form's validation schema: one rule per field, checked before the
    form's submit handler may run. */
module QcForm {
  import opened JsValues
  import opened CivilDate

  /** The values the QC form holds. Select inputs start out as `null`
      (`None`); number inputs hold what `parseFloat`/`parseInt` produced. */
  datatype Draft = Draft(
    qcInspector: Option<string>,
    qcDate: string,
    readyToHarvest: string,
    heightOfTree: Num,
    estimatedNumberOfNuts: Num,
    numberOfTrees: Num,
    quality: Option<string>,
    size: Option<string>,
    hardShellNutsPercentage: Num,
    fieldCondition: Option<string>,
    vehicleEnteringCondition: Option<string>,
    isTenderCoconutFarm: bool,
    isDryCoconutFarm: bool,
    miteAttacksOrMarks: bool,
    waterPercentage: Num,
    malaiPercentage: Num,
    shape: Option<string>,
    generalHarvestCycleInDays: Num,
    chutePercentage: Num,
    otherCropsAvailable: string,
    lastHarvestNumberOfNuts: Num,
    lastHarvestDate: string,
    farmerUsesWhatsapp: Option<string>)

  /** The fields of the schema, in the order the schema lists them. */
  datatype Field =
    | QcInspector | QcDate | ReadyToHarvest | HeightOfTree | EstimatedNumberOfNuts
    | NumberOfTrees | Quality | Size | HardShellNutsPercentage | FieldCondition
    | VehicleEnteringCondition | IsTenderCoconutFarm | IsDryCoconutFarm
    | MiteAttacksOrMarks | WaterPercentage | MalaiPercentage | Shape
    | GeneralHarvestCycleInDays | ChutePercentage | OtherCropsAvailable
    | LastHarvestNumberOfNuts | LastHarvestDate | FarmerUsesWhatsapp

  const AllFields: seq<Field> := [
    QcInspector, QcDate, ReadyToHarvest, HeightOfTree, EstimatedNumberOfNuts,
    NumberOfTrees, Quality, Size, HardShellNutsPercentage, FieldCondition,
    VehicleEnteringCondition, IsTenderCoconutFarm, IsDryCoconutFarm,
    MiteAttacksOrMarks, WaterPercentage, MalaiPercentage, Shape,
    GeneralHarvestCycleInDays, ChutePercentage, OtherCropsAvailable,
    LastHarvestNumberOfNuts, LastHarvestDate, FarmerUsesWhatsapp]

  /** The kinds of rule the schema uses:
      - `RequiredChoice`: `z.string().min(1).nullable().refine(v => v !== null)`
      - `RequiredText`: `z.string().min(1)`
      - `NonZeroAmount`: `z.number().nonnegative().refine(v => v !== 0).refine(v => !isNaN(v))`
      - `NonNegativeAmount`: `z.number().nonnegative().refine(v => !isNaN(v))`
      - `AnyBoolean`: `z.boolean()` */
  datatype Rule = RequiredChoice | RequiredText | NonZeroAmount | NonNegativeAmount | AnyBoolean

  /** The schema's rule table. Water and malai percentages reject zero like
      the counts; hard-shell and chute percentages allow it. */
  function RuleOf(f: Field): (r: Rule)
    ensures r == AnyBoolean <==> f == IsTenderCoconutFarm || f == IsDryCoconutFarm || f == MiteAttacksOrMarks
    ensures r == NonNegativeAmount <==> f == HardShellNutsPercentage || f == ChutePercentage
    ensures r == RequiredText <==> f == QcDate || f == ReadyToHarvest || f == OtherCropsAvailable || f == LastHarvestDate
  {
    match f
    case QcInspector => RequiredChoice
    case QcDate => RequiredText
    case ReadyToHarvest => RequiredText
    case HeightOfTree => NonZeroAmount
    case EstimatedNumberOfNuts => NonZeroAmount
    case NumberOfTrees => NonZeroAmount
    case Quality => RequiredChoice
    case Size => RequiredChoice
    case HardShellNutsPercentage => NonNegativeAmount
    case FieldCondition => RequiredChoice
    case VehicleEnteringCondition => RequiredChoice
    case IsTenderCoconutFarm => AnyBoolean
    case IsDryCoconutFarm => AnyBoolean
    case MiteAttacksOrMarks => AnyBoolean
    case WaterPercentage => NonZeroAmount
    case MalaiPercentage => NonZeroAmount
    case Shape => RequiredChoice
    case GeneralHarvestCycleInDays => NonZeroAmount
    case ChutePercentage => NonNegativeAmount
    case OtherCropsAvailable => RequiredText
    case LastHarvestNumberOfNuts => NonZeroAmount
    case LastHarvestDate => RequiredText
    case FarmerUsesWhatsapp => RequiredChoice
  }

  /** The value a field holds, tagged by the kind of input it comes from. */
  datatype FieldValue = Choice(c: Option<string>) | Text(t: string) | Amount(n: Num) | Flag(b: bool)

  predicate Fits(r: Rule, v: FieldValue)
  {
    match r
    case RequiredChoice => v.Choice?
    case RequiredText => v.Text?
    case NonZeroAmount => v.Amount?
    case NonNegativeAmount => v.Amount?
    case AnyBoolean => v.Flag?
  }

  /** The value of field `f` in draft `d`; its kind is the one its rule expects. */
  function ValueOf(d: Draft, f: Field): (v: FieldValue)
    ensures Fits(RuleOf(f), v)
  {
    match f
    case QcInspector => Choice(d.qcInspector)
    case QcDate => Text(d.qcDate)
    case ReadyToHarvest => Text(d.readyToHarvest)
    case HeightOfTree => Amount(d.heightOfTree)
    case EstimatedNumberOfNuts => Amount(d.estimatedNumberOfNuts)
    case NumberOfTrees => Amount(d.numberOfTrees)
    case Quality => Choice(d.quality)
    case Size => Choice(d.size)
    case HardShellNutsPercentage => Amount(d.hardShellNutsPercentage)
    case FieldCondition => Choice(d.fieldCondition)
    case VehicleEnteringCondition => Choice(d.vehicleEnteringCondition)
    case IsTenderCoconutFarm => Flag(d.isTenderCoconutFarm)
    case IsDryCoconutFarm => Flag(d.isDryCoconutFarm)
    case MiteAttacksOrMarks => Flag(d.miteAttacksOrMarks)
    case WaterPercentage => Amount(d.waterPercentage)
    case MalaiPercentage => Amount(d.malaiPercentage)
    case Shape => Choice(d.shape)
    case GeneralHarvestCycleInDays => Amount(d.generalHarvestCycleInDays)
    case ChutePercentage => Amount(d.chutePercentage)
    case OtherCropsAvailable => Text(d.otherCropsAvailable)
    case LastHarvestNumberOfNuts => Amount(d.lastHarvestNumberOfNuts)
    case LastHarvestDate => Text(d.lastHarvestDate)
    case FarmerUsesWhatsapp => Choice(d.farmerUsesWhatsapp)
  }

  /** `z.number()` refuses NaN before any other check runs. */
  predicate IsNumber(n: Num) { !n.NaN? }

  /** `.nonnegative()`: `n >= 0`, which is false for NaN. */
  predicate NonNegative(n: Num) { n.Val? && n.r >= 0.0 }

  /** A required select: `null` fails the refinement, `""` fails `min(1)`. */
  function ChoiceOk(c: Option<string>): (ok: bool)
    ensures ok <==> c.Some? && c.value != ""
  {
    match c
    case None => false
    case Some(s) => |s| >= 1
  }

  /** A required text field: only the empty string fails. */
  function TextOk(t: string): (ok: bool)
    ensures ok <==> t != ""
  {
    |t| >= 1
  }

  /** A count or percentage that must be present and non-zero: exactly the
      strictly positive numbers pass; zero, negatives and NaN fail. */
  function NonZeroAmountOk(n: Num): (ok: bool)
    ensures ok <==> n.Val? && n.r > 0.0
  {
    IsNumber(n) && NonNegative(n) && n != Val(0.0) && !n.NaN?
  }

  /** A percentage that may be zero: every non-negative number passes;
      negatives and NaN fail. */
  function NonNegativeAmountOk(n: Num): (ok: bool)
    ensures ok <==> n.Val? && n.r >= 0.0
    ensures n == Val(0.0) ==> ok
  {
    IsNumber(n) && NonNegative(n) && !n.NaN?
  }

  function Accepts(r: Rule, v: FieldValue): bool
    requires Fits(r, v)
  {
    match r
    case RequiredChoice => ChoiceOk(v.c)
    case RequiredText => TextOk(v.t)
    case NonZeroAmount => NonZeroAmountOk(v.n)
    case NonNegativeAmount => NonNegativeAmountOk(v.n)
    case AnyBoolean => true
  }

  /** Whether field `f` of `d` passes its rule. */
  function FieldOk(d: Draft, f: Field): (ok: bool)
    ensures RuleOf(f) == RequiredChoice ==> (ok <==> ValueOf(d, f).c.Some? && ValueOf(d, f).c.value != "")
    ensures RuleOf(f) == RequiredText ==> (ok <==> ValueOf(d, f).t != "")
    ensures RuleOf(f) == NonZeroAmount ==> (ok <==> ValueOf(d, f).n.Val? && ValueOf(d, f).n.r > 0.0)
    ensures RuleOf(f) == NonNegativeAmount ==> (ok <==> ValueOf(d, f).n.Val? && ValueOf(d, f).n.r >= 0.0)
    ensures RuleOf(f) == AnyBoolean ==> ok
  {
    Accepts(RuleOf(f), ValueOf(d, f))
  }

  /** The fields among `fs` that fail, in the order of `fs`. */
  function FailingAmong(d: Draft, fs: seq<Field>): (errs: seq<Field>)
    ensures forall f :: f in errs <==> f in fs && !FieldOk(d, f)
    ensures |errs| <= |fs|
  {
    if fs == [] then []
    else (if FieldOk(d, fs[0]) then [] else [fs[0]]) + FailingAmong(d, fs[1..])
  }

  lemma EveryFieldListed(f: Field)
    ensures f in AllFields
  {
  }

  /** The schema's verdict: the failing fields in schema order; empty when
      the draft is accepted. */
  function Errors(d: Draft): (errs: seq<Field>)
    ensures forall f :: f in errs <==> !FieldOk(d, f)
  {
    forall f: Field ensures f in AllFields { EveryFieldListed(f); }
    FailingAmong(d, AllFields)
  }

  /** The draft passes validation, so the submit handler runs: exactly when
      every field passes its rule. */
  function Valid(d: Draft): (ok: bool)
    ensures ok <==> forall f :: FieldOk(d, f)
  {
    var errs := Errors(d);
    assert errs != [] ==> errs[0] in errs;
    errs == []
  }

  /** The form's initial values: no selection made, every number 0, the dates
      today's, no other crops. */
  function DefaultDraft(today: Date): (d: Draft)
    requires ValidDate(today)
    ensures d.qcDate == FormatIso(today) && d.readyToHarvest == d.qcDate && d.lastHarvestDate == d.qcDate
    ensures d.otherCropsAvailable == ""
    ensures forall f :: RuleOf(f) == RequiredChoice ==> ValueOf(d, f) == Choice(None)
    ensures forall f :: RuleOf(f) == NonZeroAmount || RuleOf(f) == NonNegativeAmount ==> ValueOf(d, f) == Amount(Val(0.0))
    ensures forall f :: RuleOf(f) == AnyBoolean ==> ValueOf(d, f) == Flag(false)
  {
    var day := FormatIso(today);
    Draft(
      qcInspector := None,
      qcDate := day,
      readyToHarvest := day,
      heightOfTree := Val(0.0),
      estimatedNumberOfNuts := Val(0.0),
      numberOfTrees := Val(0.0),
      quality := None,
      size := None,
      hardShellNutsPercentage := Val(0.0),
      fieldCondition := None,
      vehicleEnteringCondition := None,
      isTenderCoconutFarm := false,
      isDryCoconutFarm := false,
      miteAttacksOrMarks := false,
      waterPercentage := Val(0.0),
      malaiPercentage := Val(0.0),
      shape := None,
      generalHarvestCycleInDays := Val(0.0),
      chutePercentage := Val(0.0),
      otherCropsAvailable := "",
      lastHarvestNumberOfNuts := Val(0.0),
      lastHarvestDate := day,
      farmerUsesWhatsapp := None)
  }

  /** How one field of the initial values fares: the selects and the amounts
      that must be non-zero fail, and so does the empty crop list; the dates,
      the flags and the percentages that may be zero pass. */
  lemma DefaultFieldOk(today: Date, f: Field)
    requires ValidDate(today)
    ensures !FieldOk(DefaultDraft(today), f) <==>
      RuleOf(f) == RequiredChoice || RuleOf(f) == NonZeroAmount || f == OtherCropsAvailable
  {
    var d := DefaultDraft(today);
    match RuleOf(f)
    case RequiredText =>
      assert |FormatIso(today)| >= 10;
    case _ =>
  }

  /** The initial values do not pass validation: the failing fields are
      exactly the selects, the amounts that must be non-zero and the crop
      list. */
  lemma DefaultDraftErrors(today: Date)
    requires ValidDate(today)
    ensures !Valid(DefaultDraft(today))
    ensures QcInspector in Errors(DefaultDraft(today)) && HeightOfTree in Errors(DefaultDraft(today))
    ensures forall f :: f in Errors(DefaultDraft(today)) <==>
      RuleOf(f) == RequiredChoice || RuleOf(f) == NonZeroAmount || f == OtherCropsAvailable
  {
    forall f
      ensures !FieldOk(DefaultDraft(today), f) <==>
        RuleOf(f) == RequiredChoice || RuleOf(f) == NonZeroAmount || f == OtherCropsAvailable
    {
      DefaultFieldOk(today, f);
    }
  }
}
