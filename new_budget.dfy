/** The "Create New Budget" form: its fields, their defaults, the change
    handler shared by every input, and the submit and back buttons. */
module NewBudget {
  import opened Browser

  /** The form's values keyed by input name; every value is the raw text of
      its input. */
  type FormData = map<string, string>

  const DefaultApiBase: string := "https://api.litellm.ai"

  /** The names of the form's inputs. */
  const FieldNames: set<string> :=
    {"customer_name", "email", "organization_id", "soft_budget", "hard_budget",
     "max_budget", "api_base", "notes"}

  /** Where submit, Back and Cancel go. */
  const CustomersPath: string := "/admin/customers"

  /** The form before any input: every field empty except the API base. */
  function InitialFormData(): (f: FormData)
    ensures f.Keys == FieldNames
    ensures forall k :: k in f && k != "api_base" ==> f[k] == ""
    ensures f["api_base"] == DefaultApiBase
  {
    map["customer_name" := "", "email" := "", "organization_id" := "",
        "soft_budget" := "", "hard_budget" := "", "max_budget" := "",
        "api_base" := DefaultApiBase, "notes" := ""]
  }

  /** `{...formData, [name]: value}`: field `name` takes `value`, every
      other field is kept. */
  function Changed(f: FormData, name: string, value: string): (g: FormData)
    ensures g.Keys == f.Keys + {name}
    ensures g[name] == value
    ensures forall k :: k in f && k != name ==> g[k] == f[k]
  {
    f[name := value]
  }

  /** Applying the same change twice is applying it once. */
  lemma ChangeIdempotent(f: FormData, name: string, value: string)
    ensures Changed(Changed(f, name, value), name, value) == Changed(f, name, value)
  {
  }

  /** Changes to two different fields commute. */
  lemma ChangesCommute(f: FormData, n1: string, v1: string, n2: string, v2: string)
    requires n1 != n2
    ensures Changed(Changed(f, n1, v1), n2, v2) == Changed(Changed(f, n2, v2), n1, v1)
  {
  }

  /** The budget fields are raw strings the handlers never compare: a hard
      budget below the soft budget is kept as typed. */
  lemma BudgetOrderNotChecked(soft: string, hard: string)
    ensures var f := Changed(Changed(InitialFormData(), "soft_budget", soft), "hard_budget", hard);
            f["soft_budget"] == soft && f["hard_budget"] == hard && f.Keys == FieldNames
  {
  }

  /** The form page's state. */
  class BudgetForm {
    var formData: FormData

    constructor ()
      ensures formData == InitialFormData()
    {
      formData := InitialFormData();
    }

    /** `handleChange`: the input named `name` now holds `value`. */
    method HandleChange(name: string, value: string)
      modifies this
      ensures formData == Changed(old(formData), name, value)
    {
      formData := formData[name := value];
    }

    /** `handleSubmit`: stores nothing and always pushes the customer list.
        The Back and Cancel buttons push the same navigation. */
    method HandleSubmit() returns (nav: Navigation)
      ensures nav == Navigation(CustomersPath, false)
    {
      nav := Navigation(CustomersPath, false);
    }
  }
}
