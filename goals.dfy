/** The goals page: the goal list, the "add goal" form with its guarded append and reset,
    delete by id, and the progress percentage of a goal. */
module Goals {
  import opened Wrappers
  import opened Text

  /** The two kinds of goal the form offers. */
  datatype GoalType = Saving | Challenge

  datatype Icon = TargetIcon | TrophyIcon | CoffeeIcon | FlagIcon

  /** A JavaScript number produced by `parseInt`: an integer, or `NaN`. */
  datatype Number = Int(value: int) | NaN

  datatype Goal = Goal(id: int, title: string, target: Number, current: int,
                       kind: GoalType, icon: Icon, color: string)

  /** The form's fields: the title and target as typed, and the selected type. */
  datatype GoalForm = GoalForm(title: string, target: string, kind: GoalType)

  const EmptyForm := GoalForm("", "", Saving)

  const InitialGoals: seq<Goal> := [
    Goal(1, "Emergency Fund", Int(100000), 45000, Saving, TargetIcon, "blue"),
    Goal(2, "Limit Coffee Spend", Int(500), 120, Challenge, CoffeeIcon, "orange"),
    Goal(3, "Goa Trip", Int(25000), 8000, Saving, FlagIcon, "green")
  ]

  // ---------------------------------------------------------------------------
  // parseInt with no radix, on decimal text

  predicate IsDigit(c: char) {
    '0' <= c <= '9'
  }

  predicate AllDigits(d: string) {
    forall i :: 0 <= i < |d| ==> IsDigit(d[i])
  }

  function DigitValue(c: char): nat
    requires IsDigit(c)
  {
    c as int - '0' as int
  }

  function DigitChar(k: nat): (c: char)
    requires k < 10
    ensures IsDigit(c) && DigitValue(c) == k
  {
    ('0' as int + k) as char
  }

  /** The longest prefix of `s` made of digits: where `parseInt` stops reading. */
  function LeadingDigits(s: string): (r: string)
    ensures |r| <= |s| && s[..|r|] == r && AllDigits(r)
    ensures |r| < |s| ==> !IsDigit(s[|r|])
  {
    if s != [] && IsDigit(s[0]) then [s[0]] + LeadingDigits(s[1..]) else []
  }

  /** The value of a digit string read from the left. */
  function DigitsValue(d: string): nat
    requires AllDigits(d)
  {
    if d == [] then 0 else DigitsValue(d[..|d| - 1]) * 10 + DigitValue(d[|d| - 1])
  }

  /** `parseInt(s)`: leading white space is skipped, one sign is read, then as many
      decimal digits as follow; without any digit the result is `NaN`. */
  function ParseInt(s: string): Number {
    var t := TrimStart(s);
    var negative := t != [] && t[0] == '-';
    var u := if t != [] && (t[0] == '-' || t[0] == '+') then t[1..] else t;
    var d := LeadingDigits(u);
    if d == [] then NaN
    else if negative then Int(-(DigitsValue(d) as int))
    else Int(DigitsValue(d))
  }

  /** The decimal text of a natural number, as a number input holds it. */
  function Decimal(n: nat): (r: string)
    ensures r != [] && AllDigits(r)
  {
    if n < 10 then [DigitChar(n)] else Decimal(n / 10) + [DigitChar(n % 10)]
  }

  lemma {:induction false} DigitsValueDecimal(n: nat)
    ensures DigitsValue(Decimal(n)) == n
  {
    if n >= 10 {
      var d := Decimal(n);
      assert d[..|d| - 1] == Decimal(n / 10);
      DigitsValueDecimal(n / 10);
    }
  }

  /** Reading stops exactly at the end of a run of digits. */
  lemma {:induction false} LeadingDigitsOfRun(d: string, rest: string)
    requires AllDigits(d)
    requires rest == [] || !IsDigit(rest[0])
    ensures LeadingDigits(d + rest) == d
    decreases |d|
  {
    if d == [] {
      assert d + rest == rest;
    } else {
      assert (d + rest)[1..] == d[1..] + rest;
      LeadingDigitsOfRun(d[1..], rest);
    }
  }

  /** Reading a run of digits followed by a non-digit gives the run's value. */
  lemma ParseIntDigits(d: string, rest: string)
    requires d != [] && AllDigits(d)
    requires rest == [] || !IsDigit(rest[0])
    ensures ParseInt(d + rest) == Int(DigitsValue(d))
  {
    var s := d + rest;
    assert s[0] == d[0];
    assert TrimStart(s) == s;
    LeadingDigitsOfRun(d, rest);
  }

  /** The same after one minus sign. */
  lemma ParseIntNegativeDigits(d: string, rest: string)
    requires d != [] && AllDigits(d)
    requires rest == [] || !IsDigit(rest[0])
    ensures ParseInt("-" + d + rest) == Int(-(DigitsValue(d) as int))
  {
    var m := "-" + d + rest;
    assert m[0] == '-';
    assert TrimStart(m) == m;
    assert m[1..] == d + rest;
    LeadingDigitsOfRun(d, rest);
  }

  /** `parseInt` reads back the decimal text of any number, with or without a minus sign,
      and ignores what follows the digits, so "12.5" gives 12. */
  lemma ParseIntDecimal(n: nat, rest: string)
    requires rest == [] || !IsDigit(rest[0])
    ensures ParseInt(Decimal(n) + rest) == Int(n)
    ensures ParseInt("-" + Decimal(n) + rest) == Int(-(n as int))
  {
    DigitsValueDecimal(n);
    ParseIntDigits(Decimal(n), rest);
    ParseIntNegativeDigits(Decimal(n), rest);
  }

  /** Text that does not start with a digit (after white space and a sign) is `NaN`. */
  lemma ParseIntNaN(s: string)
    requires s != [] && !IsDigit(s[0]) && !IsSpace(s[0]) && s[0] != '-' && s[0] != '+'
    ensures ParseInt(s) == NaN
  {
  }

  // ---------------------------------------------------------------------------
  // Building, adding and deleting goals

  /** The add handler runs only with a title and a target filled in. */
  predicate CanAdd(f: GoalForm) {
    f.title != "" && f.target != ""
  }

  /** The goal the form describes, under a fresh id. */
  function NewGoal(id: int, f: GoalForm): (g: Goal)
    ensures g.id == id && g.title == f.title && g.kind == f.kind
    ensures g.target == ParseInt(f.target) && g.current == 0
    ensures g.icon == TrophyIcon <==> f.kind == Challenge
    ensures g.icon == TargetIcon <==> f.kind == Saving
    ensures g.color == "purple" <==> f.kind == Challenge
    ensures g.color == "blue" <==> f.kind == Saving
  {
    Goal(id, f.title, ParseInt(f.target), 0, f.kind,
         if f.kind == Challenge then TrophyIcon else TargetIcon,
         if f.kind == Challenge then "purple" else "blue")
  }

  /** `goals.filter(g => g.id !== id)`. */
  function WithoutId(gs: seq<Goal>, id: int): (r: seq<Goal>)
    ensures |r| <= |gs|
    ensures forall g :: g in r <==> g in gs && g.id != id
  {
    if gs == [] then []
    else if gs[0].id == id then WithoutId(gs[1..], id)
    else [gs[0]] + WithoutId(gs[1..], id)
  }

  /** Deleting keeps the order: it works on each part of a list separately. */
  lemma {:induction false} WithoutIdAppend(a: seq<Goal>, b: seq<Goal>, id: int)
    ensures WithoutId(a + b, id) == WithoutId(a, id) + WithoutId(b, id)
    decreases |a|
  {
    if a == [] {
      assert a + b == b;
    } else {
      assert (a + b)[1..] == a[1..] + b;
      WithoutIdAppend(a[1..], b, id);
    }
  }

  /** Deleting an id no goal has changes nothing. */
  lemma {:induction false} WithoutIdAbsent(gs: seq<Goal>, id: int)
    requires forall i :: 0 <= i < |gs| ==> gs[i].id != id
    ensures WithoutId(gs, id) == gs
  {
    if gs != [] {
      WithoutIdAbsent(gs[1..], id);
    }
  }

  /** Deleting twice is deleting once. */
  lemma WithoutIdIdempotent(gs: seq<Goal>, id: int)
    ensures WithoutId(WithoutId(gs, id), id) == WithoutId(gs, id)
  {
    var r := WithoutId(gs, id);
    forall i | 0 <= i < |r| ensures r[i].id != id {
      assert r[i] in r;
    }
    WithoutIdAbsent(r, id);
  }

  /** Deleting the id of a goal just added, when no earlier goal had that id, gives back
      the list as it was before the add. */
  lemma AddThenDeleteRestores(gs: seq<Goal>, freshId: int, f: GoalForm)
    requires forall i :: 0 <= i < |gs| ==> gs[i].id != freshId
    ensures WithoutId(gs + [NewGoal(freshId, f)], freshId) == gs
  {
    WithoutIdAppend(gs, [NewGoal(freshId, f)], freshId);
    WithoutIdAbsent(gs, freshId);
    assert [NewGoal(freshId, f)][1..] == [];
  }

  // ---------------------------------------------------------------------------
  // Progress

  /** `current / target * 100`; a target of 0 or `NaN` gives `NaN` or `Infinity`, which
      is `None` here. */
  function GoalProgress(g: Goal): (r: Option<real>)
    ensures r.Some? <==> g.target.Int? && g.target.value != 0
    ensures r.Some? ==> r.value * g.target.value as real == g.current as real * 100.0
  {
    match g.target
    case NaN => None
    case Int(t) =>
      if t == 0 then None
      else
        var q := g.current as real / t as real;
        assert q * t as real == g.current as real;
        Some(q * 100.0)
  }

  /** For a positive target, the goal shows 100% or more exactly when it is reached. */
  lemma ProgressReachedIff(g: Goal)
    requires g.target.Int? && g.target.value > 0
    ensures GoalProgress(g).Some?
    ensures GoalProgress(g).value >= 100.0 <==> g.current >= g.target.value
  {
    var p := GoalProgress(g).value;
    var t := g.target.value as real;
    var c := g.current as real;
    assert t > 0.0;
    assert p * t == c * 100.0;
    if p >= 100.0 {
      assert (p - 100.0) * t >= 0.0;
      assert c * 100.0 >= 100.0 * t;
    } else {
      assert (100.0 - p) * t > 0.0;
      assert c * 100.0 < 100.0 * t;
    }
  }

  /** A goal just added starts at 0%, whenever its target is a non-zero number. */
  lemma NewGoalStartsAtZero(id: int, f: GoalForm)
    requires ParseInt(f.target).Int? && ParseInt(f.target).value != 0
    ensures GoalProgress(NewGoal(id, f)) == Some(0.0)
  {
  }

  // ---------------------------------------------------------------------------
  // The page's state

  class GoalsPage {
    var goals: seq<Goal>
    var form: GoalForm
    var isOpen: bool

    constructor ()
      ensures goals == InitialGoals && form == EmptyForm && !isOpen
    {
      goals := InitialGoals;
      form := EmptyForm;
      isOpen := false;
    }

    /** The dialog's open/close control. */
    method SetOpen(open: bool)
      modifies this
      ensures isOpen == open && goals == old(goals) && form == old(form)
    {
      isOpen := open;
    }

    method EditTitle(title: string)
      modifies this
      ensures form == old(form).(title := title)
      ensures goals == old(goals) && isOpen == old(isOpen)
    {
      form := form.(title := title);
    }

    method EditTarget(target: string)
      modifies this
      ensures form == old(form).(target := target)
      ensures goals == old(goals) && isOpen == old(isOpen)
    {
      form := form.(target := target);
    }

    method SelectType(kind: GoalType)
      modifies this
      ensures form == old(form).(kind := kind)
      ensures goals == old(goals) && isOpen == old(isOpen)
    {
      form := form.(kind := kind);
    }

    /** The save button. With an empty title or target nothing changes; otherwise exactly
        one goal is appended, the earlier ones kept in order, the dialog closes and the
        form is reset. */
    method AddGoal(freshId: int)
      modifies this
      ensures !CanAdd(old(form)) ==>
        goals == old(goals) && form == old(form) && isOpen == old(isOpen)
      ensures CanAdd(old(form)) ==>
        && goals == old(goals) + [NewGoal(freshId, old(form))]
        && form == EmptyForm && !isOpen
    {
      if !CanAdd(form) {
        return;
      }
      var goal := NewGoal(freshId, form);
      goals := goals + [goal];
      isOpen := false;
      form := EmptyForm;
    }

    /** The trash button: every goal with that id goes, the rest keep their order. */
    method Delete(id: int)
      modifies this
      ensures goals == WithoutId(old(goals), id)
      ensures form == old(form) && isOpen == old(isOpen)
    {
      goals := WithoutId(goals, id);
    }
  }
}
