/** The meal-planner screen: the month calendar with each day's meals,
    and the add/edit/delete handlers of the plan dialog. Date arithmetic
    is outside the model: the first weekday of the month, the number of
    days, the same-day test and the formatting of dates are inputs. */
module MealPlanner {
  import opened Common
  import Seqs

  /** A plan as the client holds it; `recipeId` is the id of the
      populated recipe, if any. */
  datatype ClientPlan = ClientPlan(
    id: Id,
    date: string,
    mealType: Option<string>,
    recipeId: Option<string>,
    recipeTitle: Option<string>,
    notes: Option<string>)

  /** The dialog's fields. */
  datatype PlanForm = PlanForm(date: string, mealType: Option<string>, recipeId: string, notes: string)

  const BlankForm := PlanForm("", Some("breakfast"), "", "")

  function PlanId(p: ClientPlan): Id {
    p.id
  }

  /** One cell of the calendar grid: a filler before the first day, or a
      day of the month with its meals. */
  datatype Cell = Filler(index: nat) | Day(day: nat, meals: seq<ClientPlan>, isToday: bool)

  /** `getMealsForDate`: the plans falling on `day`, in list order;
      `sameDay(date, day)` stands for the comparison of calendar days. */
  function MealsForDay(plans: seq<ClientPlan>, day: nat, sameDay: (string, nat) -> bool): (r: seq<ClientPlan>)
    ensures Seqs.IsSubseq(r, plans)
    ensures forall p :: p in r <==> p in plans && sameDay(p.date, day)
  {
    Seqs.FilterIsSubseq(plans, OnDay(day, sameDay));
    Seqs.Filter(plans, OnDay(day, sameDay))
  }

  /** A day's meals hold every copy of each plan on that day and no other
      plan, so with the sub-list fact they are exactly that day's plans in
      order. */
  lemma MealsForDayCounts(plans: seq<ClientPlan>, day: nat, sameDay: (string, nat) -> bool)
    ensures forall p :: multiset(MealsForDay(plans, day, sameDay))[p] == if sameDay(p.date, day) then multiset(plans)[p] else 0
  {
    Seqs.FilterMultiset(plans, OnDay(day, sameDay));
  }

  function OnDay(day: nat, sameDay: (string, nat) -> bool): ClientPlan -> bool {
    (p: ClientPlan) => sameDay(p.date, day)
  }

  /** The caption of a meal in its cell. */
  function MealCaption(p: ClientPlan): (r: string)
    ensures Truthy(p.recipeTitle) ==> r == p.recipeTitle.value
    ensures !Truthy(p.recipeTitle) ==> r == "Custom meal"
  {
    OrElse(p.recipeTitle, "Custom meal")
  }

  /** `renderCalendar`: `firstDay` fillers, then one cell per day of the
      month in ascending order. `today` is today's day of the month when
      the shown month is the current one. */
  method RenderCalendar(firstDay: nat, daysInMonth: nat, plans: seq<ClientPlan>,
                        sameDay: (string, nat) -> bool, today: Option<nat>)
    returns (cells: seq<Cell>)
    ensures |cells| == firstDay + daysInMonth
    ensures forall i :: 0 <= i < firstDay ==> cells[i] == Filler(i)
    ensures forall d :: 1 <= d <= daysInMonth ==>
      cells[firstDay + d - 1] == Day(d, MealsForDay(plans, d, sameDay), today == Some(d))
  {
    cells := [];
    var i := 0;
    while i < firstDay
      invariant i <= firstDay
      invariant |cells| == i
      invariant forall k :: 0 <= k < i ==> cells[k] == Filler(k)
    {
      cells := cells + [Filler(i)];
      i := i + 1;
    }
    var day := 1;
    while day <= daysInMonth
      invariant 1 <= day <= daysInMonth + 1
      invariant |cells| == firstDay + day - 1
      invariant forall k :: 0 <= k < firstDay ==> cells[k] == Filler(k)
      invariant forall d :: 1 <= d < day ==>
        cells[firstDay + d - 1] == Day(d, MealsForDay(plans, d, sameDay), today == Some(d))
    {
      cells := cells + [Day(day, MealsForDay(plans, day, sameDay), today == Some(day))];
      day := day + 1;
    }
  }

  /** Every plan of the list that falls on a shown day appears in that
      day's cell. */
  lemma PlanShownOnItsDay(cells: seq<Cell>, firstDay: nat, daysInMonth: nat, plans: seq<ClientPlan>,
                          sameDay: (string, nat) -> bool, today: Option<nat>, p: ClientPlan, d: nat)
    requires |cells| == firstDay + daysInMonth
    requires forall e :: 1 <= e <= daysInMonth ==>
      cells[firstDay + e - 1] == Day(e, MealsForDay(plans, e, sameDay), today == Some(e))
    requires p in plans && 1 <= d <= daysInMonth && sameDay(p.date, d)
    ensures cells[firstDay + d - 1].Day? && p in cells[firstDay + d - 1].meals
  {
    assert cells[firstDay + d - 1] == Day(d, MealsForDay(plans, d, sameDay), today == Some(d));
  }

  class MealPlannerState {
    var plans: seq<ClientPlan>
    var recipes: seq<string>
    var showAddForm: bool
    var editing: Option<ClientPlan>
    var form: PlanForm
    var loading: bool

    /** While the dialog is closed its fields are blank. */
    ghost predicate Valid()
      reads this
    {
      !showAddForm && editing.None? ==> form == BlankForm
    }

    constructor()
      ensures Valid()
      ensures plans == [] && recipes == [] && !showAddForm && editing.None? && form == BlankForm && loading
    {
      plans := [];
      recipes := [];
      showAddForm := false;
      editing := None;
      form := BlankForm;
      loading := true;
    }

    /** The start-up loads. For each request the outer None is a failed
        request, which leaves the list as it was; the inner value is
        `response.data`, with nothing read as the empty list. */
    method Load(plansAnswer: Option<Option<seq<ClientPlan>>>, recipesAnswer: Option<Option<seq<string>>>)
      requires Valid()
      modifies this
      ensures Valid()
      ensures plansAnswer.None? ==> plans == old(plans)
      ensures plansAnswer.Some? ==> plans == plansAnswer.value.GetOr([])
      ensures recipesAnswer.None? ==> recipes == old(recipes)
      ensures recipesAnswer.Some? ==> recipes == recipesAnswer.value.GetOr([])
      ensures !loading
      ensures showAddForm == old(showAddForm) && editing == old(editing) && form == old(form)
    {
      if plansAnswer.Some? {
        plans := plansAnswer.value.GetOr([]);
      }
      if recipesAnswer.Some? {
        recipes := recipesAnswer.value.GetOr([]);
      }
      loading := false;
    }

    /** `resetForm`. */
    method ResetForm()
      modifies this
      ensures form == BlankForm
      ensures plans == old(plans) && recipes == old(recipes) && showAddForm == old(showAddForm)
      ensures editing == old(editing) && loading == old(loading)
    {
      form := BlankForm;
    }

    /** `closeForm`. */
    method CloseForm()
      modifies this
      ensures Valid()
      ensures !showAddForm && editing.None? && form == BlankForm
      ensures plans == old(plans) && recipes == old(recipes) && loading == old(loading)
    {
      showAddForm := false;
      editing := None;
      ResetForm();
    }

    /** `openAddForm` with the day's date already formatted (or None).
        The reset and the date update are queued in the same handler, and
        the second is built from the fields as they were, so it is the one
        that sticks. */
    method OpenAddForm(date: Option<string>)
      requires Valid()
      modifies this
      ensures Valid()
      ensures form == old(form).(date := date.GetOr(""))
      ensures !old(showAddForm) && old(editing).None? ==> form == BlankForm.(date := date.GetOr(""))
      ensures editing.None? && showAddForm
      ensures plans == old(plans) && recipes == old(recipes) && loading == old(loading)
    {
      var stale := form;
      ResetForm();
      form := stale.(date := date.GetOr(""));
      editing := None;
      showAddForm := true;
    }

    /** `openEditForm`, with the plan's date already formatted. */
    method OpenEditForm(plan: ClientPlan, isoDate: string)
      requires Valid()
      modifies this
      ensures Valid()
      ensures editing == Some(plan) && showAddForm
      ensures form == PlanForm(isoDate, plan.mealType, OrElse(plan.recipeId, ""), OrElse(plan.notes, ""))
      ensures plans == old(plans) && recipes == old(recipes) && loading == old(loading)
    {
      editing := Some(plan);
      form := PlanForm(isoDate, plan.mealType, OrElse(plan.recipeId, ""), OrElse(plan.notes, ""));
      showAddForm := true;
    }

    /** Typing into the open dialog. */
    method ChangeForm(fields: PlanForm)
      requires Valid() && (showAddForm || editing.Some?)
      modifies this
      ensures Valid()
      ensures form == fields
      ensures plans == old(plans) && recipes == old(recipes) && loading == old(loading)
      ensures showAddForm == old(showAddForm) && editing == old(editing)
    {
      form := fields;
    }

    /** `handleAddMeal`; `created` is `response.data`, None when the
        request fails. */
    method HandleAddMeal(created: Option<ClientPlan>) returns (sent: PlanForm)
      requires Valid()
      modifies this
      ensures Valid()
      ensures sent == old(form)
      ensures created.Some? ==> plans == old(plans) + [created.value] && !showAddForm && editing.None? && form == BlankForm
      ensures created.None? ==>
        plans == old(plans) && showAddForm == old(showAddForm) && editing == old(editing) && form == old(form)
      ensures recipes == old(recipes) && loading == old(loading)
    {
      sent := form;
      if created.Some? {
        plans := plans + [created.value];
        CloseForm();
      }
    }

    /** `handleUpdateMeal`; `updated` is `response.data`, None when the
        request fails. Nothing is sent unless a plan is being edited. */
    method HandleUpdateMeal(updated: Option<ClientPlan>) returns (sent: Option<(Id, PlanForm)>)
      requires Valid()
      modifies this
      ensures Valid()
      ensures old(editing).None? ==> sent.None?
      ensures old(editing).Some? ==> sent == Some((old(editing).value.id, old(form)))
      ensures old(editing).Some? && updated.Some? ==>
        plans == Seqs.ReplaceId(old(plans), PlanId, old(editing).value.id, updated.value)
        && !showAddForm && editing.None? && form == BlankForm
      ensures old(editing).None? || updated.None? ==>
        plans == old(plans) && showAddForm == old(showAddForm) && editing == old(editing) && form == old(form)
      ensures recipes == old(recipes) && loading == old(loading)
    {
      if editing.None? {
        return None;
      }
      sent := Some((editing.value.id, form));
      if updated.Some? {
        plans := Seqs.ReplaceId(plans, PlanId, editing.value.id, updated.value);
        CloseForm();
      }
    }

    /** `handleSave`: the update route while a plan is being edited, the
        create route otherwise. */
    method HandleSave(answer: Option<ClientPlan>) returns (updating: bool, sentForm: PlanForm)
      requires Valid()
      modifies this
      ensures Valid()
      ensures updating == old(editing).Some? && sentForm == old(form)
      ensures answer.Some? && !updating ==> plans == old(plans) + [answer.value]
      ensures answer.Some? && updating ==>
        plans == Seqs.ReplaceId(old(plans), PlanId, old(editing).value.id, answer.value)
      ensures answer.None? ==>
        plans == old(plans) && form == old(form) && showAddForm == old(showAddForm) && editing == old(editing)
      ensures answer.Some? ==> !showAddForm && editing.None? && form == BlankForm
      ensures recipes == old(recipes) && loading == old(loading)
    {
      sentForm := form;
      updating := editing.Some?;
      if updating {
        var _ := HandleUpdateMeal(answer);
      } else {
        var _ := HandleAddMeal(answer);
      }
    }

    /** `handleDeleteMeal`; `deleted` says whether the request succeeded. */
    method HandleDeleteMeal(id: Id, deleted: bool)
      requires Valid()
      modifies this
      ensures Valid()
      ensures plans == (if deleted then Seqs.WithoutId(old(plans), PlanId, id) else old(plans))
      ensures recipes == old(recipes) && showAddForm == old(showAddForm) && editing == old(editing)
      ensures form == old(form) && loading == old(loading)
    {
      if deleted {
        plans := Seqs.WithoutId(plans, PlanId, id);
      }
    }
  }
}
