/**
 The state of the expense tracker page: the ledger, the three form fields and
 the persisted copy of the ledger, with the operations the page runs on them
 (adding a record from the form, deleting a record by id, editing a form field).
 The clock, the id generator and the number parser are inputs of `Add`.
 */
module Page {
  import opened Ledger

  datatype Option<T> = None | Some(value: T)

  /** The date part of an ISO timestamp: everything before the first 'T'. */
  function DatePart(iso: string): (d: string)
    ensures d <= iso
    ensures 'T' !in d
    ensures |d| < |iso| ==> iso[|d|] == 'T'
    decreases |iso|
  {
    if iso == [] || iso[0] == 'T' then [] else [iso[0]] + DatePart(iso[1..])
  }

  /** Splitting "date" + "T" + "time" at the first 'T' gives back the date. */
  lemma {:induction false} DatePartOfTimestamp(date: string, time: string)
    requires 'T' !in date
    ensures DatePart(date + "T" + time) == date
    decreases |date|
  {
    var iso := date + "T" + time;
    if date != [] {
      assert iso[0] == date[0];
      assert iso[1..] == date[1..] + "T" + time;
      DatePartOfTimestamp(date[1..], time);
      assert date == [date[0]] + date[1..];
    } else {
      assert iso[0] == 'T';
    }
  }

  /** The expense tracker page. */
  class Home {
    /** The ledger, newest record first. */
    var expenses: seq<Expense>
    /** The description field of the form. */
    var description: string
    /** The amount field of the form, as typed. */
    var amount: string
    /** The category selected in the form. */
    var category: string
    /** The ledger as last written to the browser's storage. */
    var saved: seq<Expense>

    /**
     Mounting the page: the ledger is the stored one when storage holds a
     non-empty snapshot and empty otherwise, the form is blank with the first
     category selected, and storage is then written with the ledger.
     */
    constructor (stored: Option<seq<Expense>>)
      ensures expenses == (if stored.Some? then stored.value else [])
      ensures description == "" && amount == "" && category == Categories[0]
      ensures saved == expenses
    {
      expenses := if stored.Some? then stored.value else [];
      description := "";
      amount := "";
      category := Categories[0];
      saved := expenses;
    }

    /** Typing into the description field. */
    method EditDescription(text: string)
      modifies this`description
      ensures description == text
    {
      description := text;
    }

    /** Typing into the amount field. */
    method EditAmount(text: string)
      modifies this`amount
      ensures amount == text
    {
      amount := text;
    }

    /** Picking a category in the form. */
    method SelectCategory(cat: string)
      modifies this`category
      ensures category == cat
    {
      category := cat;
    }

    /**
     Submitting the form. `id` and `timestamp` are what the clock gives at the
     time of the call; `parsed` is the number read from the amount field, which
     is present whenever that field is not empty. With an empty description or
     amount nothing happens. Otherwise the new record is put at the head of the
     ledger, storage is rewritten, and the description and amount fields are
     cleared; the selected category stays.
     */
    method Add(id: string, timestamp: string, parsed: Option<real>)
      requires amount != "" ==> parsed.Some?
      modifies this`expenses, this`description, this`amount, this`saved
      ensures old(description) == "" || old(amount) == "" ==>
        && expenses == old(expenses) && saved == old(saved)
        && description == old(description) && amount == old(amount)
      ensures old(description) != "" && old(amount) != "" ==>
        && expenses == [Expense(id, old(description), parsed.value, category, DatePart(timestamp))] + old(expenses)
        && |expenses| == |old(expenses)| + 1
        && expenses[1..] == old(expenses)
        && description == "" && amount == ""
        && saved == expenses
        && Total(expenses) == Total(old(expenses)) + parsed.value
        && (forall c :: Subtotal(expenses, c) ==
              Subtotal(old(expenses), c) + (if c == category then parsed.value else 0.0))
    {
      if description == "" || amount == "" {
        return;
      }
      var record := Expense(id, description, parsed.value, category, DatePart(timestamp));
      TotalCons(record, expenses);
      forall c ensures Subtotal([record] + expenses, c) ==
          Subtotal(expenses, c) + (if c == category then parsed.value else 0.0)
      {
        SubtotalCons(record, expenses, c);
      }
      expenses := [record] + expenses;
      saved := expenses;
      description := "";
      amount := "";
    }

    /**
     Deleting by id: every record with that id goes, the others stay in their
     order, and storage is rewritten.
     */
    method Delete(id: string)
      modifies this`expenses, this`saved
      ensures expenses == Deleted(old(expenses), id)
      ensures saved == expenses
      ensures forall e :: e in expenses <==> e in old(expenses) && e.id != id
      ensures (forall e :: e in old(expenses) ==> e.id != id) ==> expenses == old(expenses)
    {
      DeletedRemovesExactly(expenses, id);
      if forall e :: e in expenses ==> e.id != id {
        DeletedAbsent(expenses, id);
      }
      expenses := Deleted(expenses, id);
      saved := expenses;
    }
  }
}
