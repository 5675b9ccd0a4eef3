/** The entries of a path through a query, and the names they are printed with. */
module PathEntries {
  type U16 = x: nat | x < 0x1_0000

  datatype PathEntry =
    | BGP | UnionLeftSide | UnionRightSide | JoinLeftSide | JoinRightSide | LeftJoinLeftSide | LeftJoinRightSide
    | LeftJoinExpression | MinusLeftSide | MinusRightSide | FilterInner | FilterExpression | GraphInner
    | ExtendInner | ExtendExpression | OrderByInner | OrderByExpression(index: U16) | ProjectInner | DistinctInner
    | ReducedInner | SliceInner | ServiceInner | GroupInner | GroupAggregation(index: U16) | IfLeft | IfMiddle
    | IfRight | OrLeft | OrRight | PathRewrite | AndLeft | AndRight | EqualLeft | EqualRight | SameTermLeft
    | SameTermRight | GreaterLeft | GreaterRight | GreaterOrEqualLeft | GreaterOrEqualRight | LessLeft | LessRight
    | LessOrEqualLeft | LessOrEqualRight | InLeft | InRight(index: U16) | MultiplyLeft | MultiplyRight | AddLeft
    | AddRight | SubtractLeft | SubtractRight | DivideLeft | DivideRight | UnaryPlus | UnaryMinus | Not | Exists
    | Coalesce(index: U16) | FunctionCall(index: U16) | AggregationOperation | OrderingOperation

  predicate Indexed(e: PathEntry) {
    e.OrderByExpression? || e.GroupAggregation? || e.InRight? || e.Coalesce? || e.FunctionCall?
  }

  // The variant of an entry, as the entry numbered zero.
  function Unnumbered(e: PathEntry): PathEntry {
    if Indexed(e) then e.(index := 0) else e
  }

  predicate Plain(s: string) { s != "" && '-' !in s && '(' !in s }

  /** The variant with a given name: its length and, where several share it, one or two of its letters. */
  function Named(s: string): PathEntry {
    match |s|
    case 3 => if s[0] == 'B' then BGP else Not
    case 6 => if s[1] == 'f' then IfLeft else if s[1] == 'r' then OrLeft else if s[1] == 'n' then InLeft else Exists
    case 7 =>
      if s[0] == 'I' then (if s[1] == 'f' then IfRight else InRight(0)) else if s[0] == 'O' then OrRight else
      if s[1] == 'n' then AndLeft else AddLeft
    case 8 =>
      if s[1] == 'f' then IfMiddle else if s[1] == 'n' then AndRight else if s[1] == 'e' then LessLeft else
      if s[1] == 'd' then AddRight else Coalesce(0)
    case 9 => if s[0] == 'E' then EqualLeft else if s[0] == 'L' then LessRight else UnaryPlus
    case 10 =>
      if s[3] == 'p' then GraphInner else if s[3] == 'c' then SliceInner else if s[3] == 'u' then GroupInner else
      if s[3] == 'a' then EqualRight else if s[3] == 'i' then DivideLeft else UnaryMinus
    case 11 =>
      if s[0] == 'F' then FilterInner else if s[0] == 'E' then ExtendInner else if s[0] == 'G' then GreaterLeft else
      if s[0] == 'D' then DivideRight else PathRewrite
    case 12 =>
      if s[2] == 'i' then JoinLeftSide else
      if s[2] == 'd' then (if s[0] == 'O' then OrderByInner else ReducedInner) else
      if s[2] == 'o' then ProjectInner else if s[2] == 'r' then ServiceInner else
      if s[2] == 'm' then SameTermLeft else if s[2] == 'e' then GreaterRight else
      if s[2] == 'l' then MultiplyLeft else if s[2] == 'b' then SubtractLeft else FunctionCall(0)
    case 13 =>
      if s[0] == 'U' then UnionLeftSide else if s[0] == 'J' then JoinRightSide else
      if s[0] == 'M' then (if s[1] == 'i' then MinusLeftSide else MultiplyRight) else
      if s[0] == 'D' then DistinctInner else if s[1] == 'a' then SameTermRight else SubtractRight
    case 14 => if s[0] == 'U' then UnionRightSide else MinusRightSide
    case 15 => LessOrEqualLeft
    case 16 =>
      if s[2] == 'f' then LeftJoinLeftSide else if s[2] == 'l' then FilterExpression else
      if s[2] == 't' then ExtendExpression else if s[2] == 'o' then GroupAggregation(0) else LessOrEqualRight
    case 17 =>
      if s[5] == 'o' then LeftJoinRightSide else if s[5] == 'B' then OrderByExpression(0) else OrderingOperation
    case 18 => if s[0] == 'L' then LeftJoinExpression else GreaterOrEqualLeft
    case 19 => GreaterOrEqualRight
    case 20 => AggregationOperation
    case _ => BGP
  }

  // A name tells its variant, and is never mistaken for the number or the hyphen after it.
  predicate Reads(s: string, e: PathEntry) { Named(s) == Unnumbered(e) && Plain(s) }

  // ----- the names, in small groups -----

  predicate IsJoin(e: PathEntry) {
    e.BGP? || e.UnionLeftSide? || e.UnionRightSide? || e.JoinLeftSide? || e.JoinRightSide?
  }

  function JoinName(e: PathEntry): (s: string)
    requires IsJoin(e)
    ensures Reads(s, e)
  {
    match e
    case BGP => "BGP"
    case UnionLeftSide => "UnionLeftSide"
    case UnionRightSide => "UnionRightSide"
    case JoinLeftSide => "JoinLeftSide"
    case JoinRightSide => "JoinRightSide"
  }

  predicate IsLeftJoin(e: PathEntry) {
    || e.LeftJoinLeftSide? || e.LeftJoinRightSide? || e.LeftJoinExpression? || e.MinusLeftSide?
    || e.MinusRightSide?
  }

  function LeftJoinName(e: PathEntry): (s: string)
    requires IsLeftJoin(e)
    ensures Reads(s, e)
  {
    match e
    case LeftJoinLeftSide => "LeftJoinLeftSide"
    case LeftJoinRightSide => "LeftJoinRightSide"
    case LeftJoinExpression => "LeftJoinExpression"
    case MinusLeftSide => "MinusLeftSide"
    case MinusRightSide => "MinusRightSide"
  }

  predicate IsFilter(e: PathEntry) {
    e.FilterInner? || e.FilterExpression? || e.GraphInner? || e.ServiceInner?
  }

  function FilterName(e: PathEntry): (s: string)
    requires IsFilter(e)
    ensures Reads(s, e)
  {
    match e
    case FilterInner => "FilterInner"
    case FilterExpression => "FilterExpression"
    case GraphInner => "GraphInner"
    case ServiceInner => "ServiceInner"
  }

  predicate IsExtend(e: PathEntry) {
    e.ExtendInner? || e.ExtendExpression? || e.OrderByInner? || e.OrderByExpression?
  }

  function ExtendName(e: PathEntry): (s: string)
    requires IsExtend(e)
    ensures Reads(s, e)
  {
    match e
    case ExtendInner => "ExtendInner"
    case ExtendExpression => "ExtendExpression"
    case OrderByInner => "OrderByInner"
    case OrderByExpression(_) => "OrderByExpression"
  }

  predicate IsModifier(e: PathEntry) {
    e.ProjectInner? || e.DistinctInner? || e.ReducedInner? || e.SliceInner?
  }

  function ModifierName(e: PathEntry): (s: string)
    requires IsModifier(e)
    ensures Reads(s, e)
  {
    match e
    case ProjectInner => "ProjectInner"
    case DistinctInner => "DistinctInner"
    case ReducedInner => "ReducedInner"
    case SliceInner => "SliceInner"
  }

  predicate IsGroup(e: PathEntry) {
    e.GroupInner? || e.GroupAggregation? || e.AggregationOperation? || e.OrderingOperation?
  }

  function GroupName(e: PathEntry): (s: string)
    requires IsGroup(e)
    ensures Reads(s, e)
  {
    match e
    case GroupInner => "GroupInner"
    case GroupAggregation(_) => "GroupAggregation"
    case AggregationOperation => "AggregationOperation"
    case OrderingOperation => "OrderingOperation"
  }

  predicate IsCondition(e: PathEntry) {
    || e.IfLeft? || e.IfMiddle? || e.IfRight? || e.OrLeft? || e.OrRight? || e.AndLeft? || e.AndRight?
    || e.Not? || e.Exists? || e.InLeft? || e.InRight?
  }

  function ConditionName(e: PathEntry): (s: string)
    requires IsCondition(e)
    ensures Reads(s, e)
  {
    match e
    case IfLeft => "IfLeft"
    case IfMiddle => "IfMiddle"
    case IfRight => "IfRight"
    case OrLeft => "OrLeft"
    case OrRight => "OrRight"
    case AndLeft => "AndLeft"
    case AndRight => "AndRight"
    case Not => "Not"
    case Exists => "Exists"
    case InLeft => "InLeft"
    case InRight(_) => "InRight"
  }

  predicate IsCall(e: PathEntry) {
    e.PathRewrite? || e.Coalesce? || e.FunctionCall? || e.UnaryPlus? || e.UnaryMinus?
  }

  function CallName(e: PathEntry): (s: string)
    requires IsCall(e)
    ensures Reads(s, e)
  {
    match e
    case PathRewrite => "PathRewrite"
    case Coalesce(_) => "Coalesce"
    case FunctionCall(_) => "FunctionCall"
    case UnaryPlus => "UnaryPlus"
    case UnaryMinus => "UnaryMinus"
  }

  predicate IsEquality(e: PathEntry) {
    e.EqualLeft? || e.EqualRight? || e.SameTermLeft? || e.SameTermRight?
  }

  function EqualityName(e: PathEntry): (s: string)
    requires IsEquality(e)
    ensures Reads(s, e)
  {
    match e
    case EqualLeft => "EqualLeft"
    case EqualRight => "EqualRight"
    case SameTermLeft => "SameTermLeft"
    case SameTermRight => "SameTermRight"
  }

  predicate IsGreater(e: PathEntry) {
    e.GreaterLeft? || e.GreaterRight? || e.GreaterOrEqualLeft? || e.GreaterOrEqualRight?
  }

  function GreaterName(e: PathEntry): (s: string)
    requires IsGreater(e)
    ensures Reads(s, e)
  {
    match e
    case GreaterLeft => "GreaterLeft"
    case GreaterRight => "GreaterRight"
    case GreaterOrEqualLeft => "GreaterOrEqualLeft"
    case GreaterOrEqualRight => "GreaterOrEqualRight"
  }

  predicate IsLess(e: PathEntry) {
    e.LessLeft? || e.LessRight? || e.LessOrEqualLeft? || e.LessOrEqualRight?
  }

  function LessName(e: PathEntry): (s: string)
    requires IsLess(e)
    ensures Reads(s, e)
  {
    match e
    case LessLeft => "LessLeft"
    case LessRight => "LessRight"
    case LessOrEqualLeft => "LessOrEqualLeft"
    case LessOrEqualRight => "LessOrEqualRight"
  }

  predicate IsSum(e: PathEntry) {
    e.AddLeft? || e.AddRight? || e.SubtractLeft? || e.SubtractRight?
  }

  function SumName(e: PathEntry): (s: string)
    requires IsSum(e)
    ensures Reads(s, e)
  {
    match e
    case AddLeft => "AddLeft"
    case AddRight => "AddRight"
    case SubtractLeft => "SubtractLeft"
    case SubtractRight => "SubtractRight"
  }

  predicate IsProduct(e: PathEntry) {
    e.MultiplyLeft? || e.MultiplyRight? || e.DivideLeft? || e.DivideRight?
  }

  function ProductName(e: PathEntry): (s: string)
    requires IsProduct(e)
    ensures Reads(s, e)
  {
    match e
    case MultiplyLeft => "MultiplyLeft"
    case MultiplyRight => "MultiplyRight"
    case DivideLeft => "DivideLeft"
    case DivideRight => "DivideRight"
  }

  /** The printed entry without its number. */
  function Name(e: PathEntry): string {
    if IsJoin(e) then JoinName(e)
    else if IsLeftJoin(e) then LeftJoinName(e)
    else if IsFilter(e) then FilterName(e)
    else if IsExtend(e) then ExtendName(e)
    else if IsModifier(e) then ModifierName(e)
    else if IsGroup(e) then GroupName(e)
    else if IsCondition(e) then ConditionName(e)
    else if IsCall(e) then CallName(e)
    else if IsEquality(e) then EqualityName(e)
    else if IsGreater(e) then GreaterName(e)
    else if IsLess(e) then LessName(e)
    else if IsSum(e) then SumName(e)
    else ProductName(e)
  }

  /** Every name can be read back. */
  lemma NameRead(e: PathEntry)
    ensures Reads(Name(e), e)
  {
  }

  lemma NamePlain(e: PathEntry)
    ensures Plain(Name(e))
  {
    NameRead(e);
  }

  /** Entries with the same name are the same variant. */
  lemma SameName(e: PathEntry, f: PathEntry)
    requires Name(e) == Name(f)
    ensures Unnumbered(e) == Unnumbered(f)
  {
    NameRead(e);
    NameRead(f);
  }
}
