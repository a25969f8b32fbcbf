/** The close-with-confirmation logic of the add-build dialog (AddBuildModal.jsx). */
module AddBuildModal {
  import opened BuildForm

  /** `hasData`: some field of the form differs from "". */
  function HasData(f: Form): (r: bool)
    ensures !r <==>
      && f.championName == "" && f.description == "" && f.creator == ""
      && (forall j :: 0 <= j < |f.artifacts| ==> f.artifacts[j] == "")
      && (forall j :: 0 <= j < |f.items| ==> f.items[j] == "")
      && (forall j :: 0 <= j < |f.powers| ==> f.powers[j] == "")
  {
    || f.championName != ""
    || AnyFilled(f.artifacts)
    || AnyFilled(f.items)
    || AnyFilled(f.powers)
    || f.description != ""
    || f.creator != ""
  }

  /** The empty form has no data, and a form that passes the page's check always has some. */
  lemma HasDataBounds(f: Form)
    ensures !HasData(Empty)
    ensures f.championName != "" ==> HasData(f)
  {
  }

  /** The dialog's own flag and the page's flag that `onClose` clears. */
  class Modal {
    /**
      The page's `isAddModalOpen` (`BuildsPage.Page.addOpen`) as the dialog
      sees it: `onClose` is the page's setter that clears it.
    */
    var open: bool
    /** The dialog's own `showConfirmModal`. */
    var confirmOpen: bool

    constructor ()
      ensures open && !confirmOpen
    {
      open := true;
      confirmOpen := false;
    }

    /** `handleClose`: with data, ask for confirmation and stay open; without, close. */
    method HandleClose(form: Form)
      modifies this
      ensures HasData(form) ==> confirmOpen && open == old(open)
      ensures !HasData(form) ==> !open && confirmOpen == old(confirmOpen)
    {
      if HasData(form) {
        confirmOpen := true;
      } else {
        open := false;
      }
    }

    /** `handleCancel`: only the confirmation closes. */
    method HandleCancel()
      modifies this
      ensures !confirmOpen && open == old(open)
    {
      confirmOpen := false;
    }

    /** `handleConfirm`: the confirmation closes, then the dialog. */
    method HandleConfirm()
      modifies this
      ensures !confirmOpen && !open
    {
      confirmOpen := false;
      open := false;
    }
  }
}
