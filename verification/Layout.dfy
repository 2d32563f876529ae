/**
 Requests with all their nested calls as trees, and every way of writing them down: each lexeme may
 be followed by any white space and comments.
 */
module Layout {
  import opened Lexical
  import opened Scanner
  import opened Gaps
  import opened AttributeText
  import opened Grammar
  import opened Blobs

  /** key = val, */
  datatype AttrL = AttrL(key: string, g0: Gap, g1: Gap, val: string, g2: Gap, g3: Gap)

  /** repeat = digits, or sequence = digits */
  datatype OptL = OptL(isRepeat: bool, g0: Gap, g1: Gap, digits: string, g2: Gap)

  /** -> dest opts [ body ] */
  datatype Call = Call(g0: Gap, g1: Gap, dest: string, g2: Gap, opts: seq<OptL>, open: Gap, body: Body, close: Gap)

  datatype Body = End | WithAttr(attr: AttrL, rest: Body) | WithCall(call: Call, rest: Body)

  /** name [ attrs ], or [ body ] */
  datatype RuleL =
    | NodeL(name: string, g0: Gap, g1: Gap, attrs: seq<AttrL>, g2: Gap)
    | TopL(g0: Gap, body: Body, g1: Gap)

  datatype Document = Document(lead: Gap, rules: seq<RuleL>)

  // ---------- printing, with the text that follows ----------

  function PrintAttrL(a: AttrL, rest: string): string {
    PrintAttr(a.key, a.g0, a.g1, a.val, a.g2, a.g3, rest)
  }

  function PrintOpt(o: OptL, rest: string): string {
    (if o.isRepeat then "repeat" else "sequence")
    + GapText(o.g0, ['='] + GapText(o.g1, o.digits + GapText(o.g2, rest)))
  }

  function PrintOpts(opts: seq<OptL>, rest: string): string {
    if opts == [] then rest else PrintOpt(opts[0], PrintOpts(opts[1..], rest))
  }

  /** Everything of a call in front of the bracket that opens the nested request. */
  function PrintHeader(c: Call, rest: string): string {
    ['-'] + GapText(c.g0, ['>'] + GapText(c.g1, c.dest + GapText(c.g2, PrintOpts(c.opts, rest))))
  }

  /** The nested request without its brackets. */
  function Inside(c: Call): string
    decreases c, 0
  {
    GapText(c.open, PrintBody(c.body, ""))
  }

  function PrintCall(c: Call, rest: string): string
    decreases c, 1
  {
    PrintHeader(c, "[" + Inside(c) + "]" + GapText(c.close, rest))
  }

  function PrintBody(b: Body, rest: string): string
    decreases b, 2
  {
    match b
    case End => rest
    case WithAttr(attr, more) => PrintAttrL(attr, PrintBody(more, rest))
    case WithCall(call, more) => PrintCall(call, PrintBody(more, rest))
  }

  function PrintAttrs(attrs: seq<AttrL>, rest: string): string {
    if attrs == [] then rest else PrintAttrL(attrs[0], PrintAttrs(attrs[1..], rest))
  }

  function PrintRule(rule: RuleL, rest: string): string {
    match rule
    case NodeL(name, g0, g1, attrs, g2) =>
      name + GapText(g0, ['['] + GapText(g1, PrintAttrs(attrs, [']'] + GapText(g2, rest))))
    case TopL(g0, body, g1) =>
      ['['] + GapText(g0, PrintBody(body, [']'] + GapText(g1, rest)))
  }

  function PrintRules(rules: seq<RuleL>): string {
    if rules == [] then "" else PrintRule(rules[0], PrintRules(rules[1..]))
  }

  function Print(doc: Document): string {
    GapText(doc.lead, PrintRules(doc.rules))
  }

  // ---------- lexically well-formed requests ----------

  predicate FitsInt(digits: string) {
    IsNumeral(digits) && NumeralValue(digits) <= INT_MAX
  }

  predicate GoodAttrL(a: AttrL) {
    && GoodName(a.key)
    && IsValueText(a.val) && (IsNumeral(a.val) ==> FitsInt(a.val))
    && GoodGap(a.g0) && GoodGap(a.g1) && GoodGap(a.g2) && GoodGap(a.g3)
  }

  /** A repetition count stays below the largest int, so that counting up to it ends. */
  predicate GoodOptL(o: OptL) {
    && FitsInt(o.digits) && (o.isRepeat ==> NumeralValue(o.digits) < INT_MAX)
    && GoodGap(o.g0) && GoodGap(o.g1) && GoodGap(o.g2)
  }

  predicate GoodOpts(opts: seq<OptL>) {
    opts == [] || (GoodOptL(opts[0]) && GoodOpts(opts[1..]))
  }

  predicate GoodAttrLs(attrs: seq<AttrL>) {
    attrs == [] || (GoodAttrL(attrs[0]) && GoodAttrLs(attrs[1..]))
  }

  predicate GoodCall(c: Call) {
    && IsIdent(c.dest) && c.dest != "repeat" && c.dest != "sequence"
    && GoodGap(c.g0) && GoodGap(c.g1) && GoodGap(c.g2) && GoodGap(c.open) && GoodGap(c.close)
    && (c.opts != [] ==> c.g2 != [])
    && GoodOpts(c.opts)
    && GoodBody(c.body)
  }

  predicate GoodBody(b: Body) {
    match b
    case End => true
    case WithAttr(attr, more) => GoodAttrL(attr) && GoodBody(more)
    case WithCall(call, more) => GoodCall(call) && GoodBody(more)
  }

  predicate GoodRuleL(rule: RuleL) {
    match rule
    case NodeL(name, g0, g1, attrs, g2) =>
      && GoodName(name) && GoodGap(g0) && GoodGap(g1) && GoodGap(g2)
      && GoodAttrLs(attrs)
    case TopL(g0, body, g1) => GoodGap(g0) && GoodBody(body) && GoodGap(g1)
  }

  predicate GoodDocument(doc: Document) {
    GoodGap(doc.lead) && GoodRuleLs(doc.rules)
  }

  predicate GoodRuleLs(rules: seq<RuleL>) {
    forall i | 0 <= i < |rules| :: GoodRuleL(rules[i])
  }

  // ---------- what the scanner needs to hand everything on as it was written ----------

  /** The strings of this request have no NUL, and the text of each of its calls is intact. */
  predicate Verbatim(b: Body) {
    match b
    case End => true
    case WithAttr(a, more) => NulFree(a.val) && Verbatim(more)
    case WithCall(c, more) => Intact(Inside(c)) && Verbatim(more)
  }

  /** Same, at every level of nesting. */
  predicate AllVerbatim(b: Body) {
    match b
    case End => true
    case WithAttr(a, more) => NulFree(a.val) && AllVerbatim(more)
    case WithCall(c, more) => Intact(Inside(c)) && AllVerbatim(c.body) && AllVerbatim(more)
  }

  predicate VerbatimAttrs(attrs: seq<AttrL>) {
    attrs == [] || (NulFree(attrs[0].val) && VerbatimAttrs(attrs[1..]))
  }

  predicate VerbatimRule(rule: RuleL) {
    match rule
    case NodeL(_, _, _, attrs, _) => VerbatimAttrs(attrs)
    case TopL(_, body, _) => Verbatim(body)
  }

  predicate VerbatimRules(rules: seq<RuleL>) {
    forall i | 0 <= i < |rules| :: VerbatimRule(rules[i])
  }

  predicate AllVerbatimRules(rules: seq<RuleL>) {
    VerbatimRules(rules) && forall i | 0 <= i < |rules| && rules[i].TopL? :: AllVerbatim(rules[i].body)
  }

  /** A document that every instance can read as it was meant. */
  predicate SoundDocument(doc: Document) {
    GoodDocument(doc) && AllVerbatimRules(doc.rules)
  }

  // ---------- a condition one can check piece by piece: every string and comment is intact ----------

  predicate QuietGap(g: Gap) {
    forall i | 0 <= i < |g| && g[i].Comment? :: Intact(g[i].inner)
  }

  predicate QuietAttr(a: AttrL) {
    Intact(a.val) && QuietGap(a.g0) && QuietGap(a.g1) && QuietGap(a.g2) && QuietGap(a.g3)
  }

  predicate QuietOpts(opts: seq<OptL>) {
    opts == []
    || (QuietGap(opts[0].g0) && QuietGap(opts[0].g1) && QuietGap(opts[0].g2) && QuietOpts(opts[1..]))
  }

  predicate QuietHeader(c: Call) {
    QuietGap(c.g0) && QuietGap(c.g1) && QuietGap(c.g2) && QuietOpts(c.opts) && QuietGap(c.close)
  }

  predicate QuietInside(c: Call) {
    QuietGap(c.open) && QuietBody(c.body)
  }

  predicate QuietBody(b: Body) {
    match b
    case End => true
    case WithAttr(a, more) => QuietAttr(a) && QuietBody(more)
    case WithCall(c, more) => QuietHeader(c) && QuietInside(c) && QuietBody(more)
  }

  /** At the outermost level no brackets are counted; inside the calls all are. */
  predicate NestedQuiet(b: Body) {
    match b
    case End => true
    case WithAttr(a, more) => NulFree(a.val) && NestedQuiet(more)
    case WithCall(c, more) => QuietInside(c) && NestedQuiet(more)
  }

  // ---------- the syntax tree one instance sees: nested requests are blobs ----------

  function AttrOf(a: AttrL): Attr
    requires IsValueText(a.val)
  {
    Attr(a.key, ReadValue(a.val))
  }

  function AttrsOf(attrs: seq<AttrL>): seq<Attr>
    requires GoodAttrLs(attrs)
  {
    if attrs == [] then [] else [AttrOf(attrs[0])] + AttrsOf(attrs[1..])
  }

  function OptOf(o: OptL): EdgeOpt
    requires IsNumeral(o.digits)
  {
    if o.isRepeat then Repeat(NumeralValue(o.digits)) else Sequence(NumeralValue(o.digits))
  }

  function OptsOf(opts: seq<OptL>): seq<EdgeOpt>
    requires GoodOpts(opts)
  {
    if opts == [] then [] else [OptOf(opts[0])] + OptsOf(opts[1..])
  }

  function Items(b: Body): seq<Item>
    requires GoodBody(b)
  {
    match b
    case End => []
    case WithAttr(attr, more) => [AttrItem(AttrOf(attr))] + Items(more)
    case WithCall(call, more) =>
      assert GoodCall(call);
      [EdgeItem(call.dest, OptsOf(call.opts), Inside(call) + "]")] + Items(more)
  }

  function RuleOf(rule: RuleL): Rule
    requires GoodRuleL(rule)
  {
    match rule
    case NodeL(name, _, _, attrs, _) => NodeRule(name, AttrsOf(attrs))
    case TopL(_, body, _) => TopRule(Items(body))
  }

  function RulesOf(rules: seq<RuleL>): seq<Rule>
    requires GoodRuleLs(rules)
  {
    if rules == [] then [] else [RuleOf(rules[0])] + RulesOf(rules[1..])
  }
}
