/** The account manager (components/AccountManagerModal.tsx): adding an
    account under a trimmed name, renaming one together with every holding
    that names it as its platform, deleting a non-default one, and the
    edit state of the list. */
module AccountManagerModal {

  import opened Types
  import opened Db
  import Text

  /** Only accounts that are not defaults get a delete button. */
  predicate DeleteOffered(acc: Account) {
    !acc.isDefault
  }

  /** None of the seeded accounts can be deleted from the list. */
  lemma SeededAccountsKept(firstId: int)
    ensures forall i :: 0 <= i < |DefaultAccounts(firstId)| ==> !DeleteOffered(DefaultAccounts(firstId)[i])
  {
  }

  class AccountManager {
    var newAccountName: string
    var isAdding: bool
    var editingId: Option<int>
    var editName: string

    /** No row is being renamed. */
    predicate NotEditing()
      reads this
    {
      editingId == None && editName == ""
    }

    constructor()
      ensures newAccountName == "" && !isAdding && NotEditing()
    {
      newAccountName, isAdding := "", false;
      editingId, editName := None, "";
    }

    /** The add row is shown or hidden. */
    method SetAdding(adding: bool)
      modifies this`isAdding
      ensures isAdding == adding
    {
      isAdding := adding;
    }

    /** Typing in the add row. */
    method SetNewAccountName(name: string)
      modifies this`newAccountName
      ensures newAccountName == name
    {
      newAccountName := name;
    }

    /** Typing in the rename row. */
    method SetEditName(name: string)
      modifies this`editName
      ensures editName == name
    {
      editName := name;
    }

    /** `handleAddAccount`: a name that is blank once trimmed is ignored;
        otherwise a non-default account with the trimmed name is added and
        the add row is reset and closed. */
    method HandleAddAccount(db: Database) returns (added: Option<int>)
      requires db.Valid()
      modifies this`newAccountName, this`isAdding, db
      ensures db.Valid()
      ensures added.None? <==> Text.AllSpace(old(newAccountName))
      ensures added.None? ==> unchanged(this) && unchanged(db)
      ensures added.Some? ==>
        added.value == old(db.nextAccountId) &&
        db.accounts == old(db.accounts) + [Account(Some(added.value), Text.Trim(old(newAccountName)), false)] &&
        db.funds == old(db.funds) && newAccountName == "" && !isAdding
    {
      var name := Text.Trim(newAccountName);
      Text.TrimEmptyIffAllSpace(newAccountName);
      if name != "" {
        var id := db.AddAccount(name, false);
        newAccountName := "";
        isAdding := false;
        added := Some(id);
      } else {
        added := None;
      }
    }

    /** `handleDeleteAccount`: with a key and the user's confirmation the
        account record is removed; holdings on it are not touched. */
    method HandleDeleteAccount(db: Database, id: Id, confirmed: bool)
      requires db.Valid()
      modifies db`accounts
      ensures db.Valid()
      ensures HasId(id) && confirmed ==> db.accounts == WithoutAccount(old(db.accounts), id.value)
      ensures !(HasId(id) && confirmed) ==> db.accounts == old(db.accounts)
      ensures db.funds == old(db.funds)
    {
      if HasId(id) && confirmed {
        db.DeleteAccount(id.value);
      }
    }

    /** `handleStartEdit`: an account with a key opens its rename row with
        its current name. */
    method HandleStartEdit(acc: Account)
      modifies this`editingId, this`editName
      ensures HasId(acc.id) ==> editingId == Some(acc.id.value) && editName == acc.name
      ensures !HasId(acc.id) ==> editingId == old(editingId) && editName == old(editName)
    {
      if HasId(acc.id) {
        editingId := Some(acc.id.value);
        editName := acc.name;
      }
    }

    /** `handleCancelEdit`. */
    method HandleCancelEdit()
      modifies this`editingId, this`editName
      ensures NotEditing()
    {
      editingId := None;
      editName := "";
    }

    /** `handleSaveEdit`: a blank trimmed name or an account without a key
        changes nothing; the account's own name only closes the rename row;
        any other name renames the account and moves every holding on the
        old name to the new one in one transaction, then closes the row.
        No check is made that the new name is free. */
    method HandleSaveEdit(db: Database, acc: Account)
      requires db.Valid()
      modifies this`editingId, this`editName, db`accounts, db`funds
      ensures db.Valid()
      ensures var newName := Text.Trim(old(editName));
        if newName == "" || !HasId(acc.id) then
          unchanged(this) && db.accounts == old(db.accounts) && db.funds == old(db.funds)
        else if newName == acc.name then
          NotEditing() && db.accounts == old(db.accounts) && db.funds == old(db.funds)
        else
          NotEditing() &&
          db.accounts == RenameAccountRecord(old(db.accounts), acc.id.value, newName) &&
          db.funds == RenamePlatform(old(db.funds), acc.name, newName)
    {
      var newName := Text.Trim(editName);
      if newName == "" || !HasId(acc.id) {
        return;
      }
      if newName == acc.name {
        HandleCancelEdit();
        return;
      }
      var oldName := acc.name;
      db.RenameAccount(acc.id.value, oldName, newName);
      HandleCancelEdit();
    }
  }
}
