/**
 * The `modal` slice of the client's Redux store: four on/off flags for the
 * account dialogs, an optional loading overlay, and six dialogs that carry a
 * message and the callbacks the page handed in. Each reducer replaces one
 * field of the slice in place; `closeAll` puts every field back to its
 * initial value.
 */
module ModalReducer {
  import opened Wrappers

  /** A callback stored in the slice. Callbacks are never called by the slice, so only
      their identity matters: `NoOp` is the empty arrow function the closed dialogs hold. */
  datatype Callback = NoOp | Handler(name: string)

  datatype OptionKind = Contained | Outlined | Create

  /** One button of the option and cursor dialogs. */
  datatype ModalOption = ModalOption(caption: string, kind: OptionKind, value: string)

  datatype Position = Position(x: real, y: real)

  /** The cursor dialog's `id`, a string or a number. */
  datatype Key = KeyText(text: string) | KeyNumber(number: real)

  datatype SubmitInitial = SubmitInitial(content: string, id: string)

  datatype LoadingModal = LoadingModal(open: bool, message: string)
  datatype RejectModal = RejectModal(open: bool, message: string, onCancel: Callback)
  datatype ConfirmModal = ConfirmModal(open: bool, message: string, onConfirm: Callback, onCancel: Callback)
  datatype OptionModal = OptionModal(
    open: bool, message: string, options: seq<ModalOption>, onOption: Callback, onCancel: Callback)
  datatype SubmitModal = SubmitModal(
    open: bool, message: string, initial: SubmitInitial, restriction: Option<string>,
    onSubmit: Callback, onCancel: Callback)
  datatype CursorModal = CursorModal(
    open: bool, message: string, options: seq<ModalOption>, onOption: Callback, onCancel: Callback,
    position: Option<Position>, id: Key)
  datatype TitleNContentModal = TitleNContentModal(open: bool, title: string, content: string, onCancel: Callback)

  /** A snapshot of the slice. */
  datatype ModalView = ModalView(
    loginModal: bool,
    signupModal: bool,
    findIdModal: bool,
    findPwModal: bool,
    loadingModal: Option<LoadingModal>,
    rejectModal: RejectModal,
    confirmModal: ConfirmModal,
    optionModal: OptionModal,
    submitModal: SubmitModal,
    cursorModal: CursorModal,
    titleNContentModal: TitleNContentModal)

  const ClosedReject: RejectModal := RejectModal(false, "", NoOp)
  const ClosedConfirm: ConfirmModal := ConfirmModal(false, "", NoOp, NoOp)
  const ClosedOption: OptionModal := OptionModal(false, "", [], NoOp, NoOp)
  const ClosedSubmit: SubmitModal := SubmitModal(false, "", SubmitInitial("", ""), None, NoOp, NoOp)
  const ClosedCursor: CursorModal := CursorModal(false, "", [], NoOp, NoOp, None, KeyText(""))
  const ClosedTitleNContent: TitleNContentModal := TitleNContentModal(false, "", "", NoOp)

  /** The slice before any action: everything closed. */
  const InitialView: ModalView := ModalView(
    false, false, false, false, None,
    ClosedReject, ClosedConfirm, ClosedOption, ClosedSubmit, ClosedCursor, ClosedTitleNContent)

  /** The names `openModal` and `closeModal` switch on. */
  predicate IsAccountDialog(kind: string) {
    kind == "login" || kind == "signup" || kind == "findId" || kind == "findPw"
  }

  /** The flag of the account dialog `kind`. */
  function FlagOf(v: ModalView, kind: string): bool
    requires IsAccountDialog(kind)
  {
    if kind == "login" then v.loginModal
    else if kind == "signup" then v.signupModal
    else if kind == "findId" then v.findIdModal
    else v.findPwModal
  }

  /** The `switch` of `openModal` (`b` true) and `closeModal` (`b` false): the named flag takes
      `b`, every other flag and every dialog keeps its value, and an unknown name changes nothing. */
  function SetFlag(v: ModalView, kind: string, b: bool): (r: ModalView)
    ensures IsAccountDialog(kind) ==> FlagOf(r, kind) == b
    ensures forall k :: IsAccountDialog(k) && k != kind ==> FlagOf(r, k) == FlagOf(v, k)
    ensures !IsAccountDialog(kind) ==> r == v
    ensures r.(loginModal := v.loginModal, signupModal := v.signupModal,
               findIdModal := v.findIdModal, findPwModal := v.findPwModal) == v
  {
    match kind
    case "login" => v.(loginModal := b)
    case "signup" => v.(signupModal := b)
    case "findId" => v.(findIdModal := b)
    case "findPw" => v.(findPwModal := b)
    case _ => v
  }

  /** Closing a dialog right after opening it leaves the slice as closing it alone would:
      that flag is off and nothing else has moved. */
  lemma {:induction false} OpenThenClose(v: ModalView, kind: string)
    ensures SetFlag(SetFlag(v, kind, true), kind, false) == SetFlag(v, kind, false)
  {
    match kind
    case "login" =>
    case "signup" =>
    case "findId" =>
    case "findPw" =>
    case _ =>
  }

  /** Closing a dialog that was already closed changes nothing. */
  lemma {:induction false} CloseClosed(v: ModalView, kind: string)
    requires IsAccountDialog(kind) ==> !FlagOf(v, kind)
    ensures SetFlag(v, kind, false) == v
  {
    match kind
    case "login" =>
    case "signup" =>
    case "findId" =>
    case "findPw" =>
    case _ =>
  }

  class ModalSlice {
    var loginModal: bool
    var signupModal: bool
    var findIdModal: bool
    var findPwModal: bool
    var loadingModal: Option<LoadingModal>
    var rejectModal: RejectModal
    var confirmModal: ConfirmModal
    var optionModal: OptionModal
    var submitModal: SubmitModal
    var cursorModal: CursorModal
    var titleNContentModal: TitleNContentModal

    function View(): ModalView
      reads this
    {
      ModalView(loginModal, signupModal, findIdModal, findPwModal, loadingModal,
                rejectModal, confirmModal, optionModal, submitModal, cursorModal, titleNContentModal)
    }

    constructor ()
      ensures View() == InitialView
    {
      loginModal, signupModal, findIdModal, findPwModal := false, false, false, false;
      loadingModal := None;
      rejectModal, confirmModal, optionModal := ClosedReject, ClosedConfirm, ClosedOption;
      submitModal, cursorModal, titleNContentModal := ClosedSubmit, ClosedCursor, ClosedTitleNContent;
    }

    method OpenModal(kind: string)
      modifies this
      ensures View() == SetFlag(old(View()), kind, true)
    {
      match kind
      case "login" => loginModal := true;
      case "signup" => signupModal := true;
      case "findId" => findIdModal := true;
      case "findPw" => findPwModal := true;
      case _ =>
    }

    method CloseModal(kind: string)
      modifies this
      ensures View() == SetFlag(old(View()), kind, false)
    {
      match kind
      case "login" => loginModal := false;
      case "signup" => signupModal := false;
      case "findId" => findIdModal := false;
      case "findPw" => findPwModal := false;
      case _ =>
    }

    /** `openLoadingModal`: an open overlay with the given message. */
    method OpenLoadingModal(message: string)
      modifies this
      ensures View() == old(View()).(loadingModal := Some(LoadingModal(true, message)))
    {
      loadingModal := Some(LoadingModal(true, message));
    }

    /** `setRejectModal`: the payload's fields, opened. */
    method SetRejectModal(message: string, onCancel: Callback)
      modifies this
      ensures View() == old(View()).(rejectModal := RejectModal(true, message, onCancel))
    {
      rejectModal := RejectModal(true, message, onCancel);
    }

    method SetConfirmModal(message: string, onConfirm: Callback, onCancel: Callback)
      modifies this
      ensures View() == old(View()).(confirmModal := ConfirmModal(true, message, onConfirm, onCancel))
    {
      confirmModal := ConfirmModal(true, message, onConfirm, onCancel);
    }

    method SetOptionModal(message: string, options: seq<ModalOption>, onOption: Callback, onCancel: Callback)
      modifies this
      ensures View() == old(View()).(optionModal := OptionModal(true, message, options, onOption, onCancel))
    {
      optionModal := OptionModal(true, message, options, onOption, onCancel);
    }

    /** `setSubmitModal`: `restriction` is `None` when the payload leaves it out. */
    method SetSubmitModal(message: string, initial: SubmitInitial, restriction: Option<string>,
                          onSubmit: Callback, onCancel: Callback)
      modifies this
      ensures View() == old(View()).(submitModal :=
        SubmitModal(true, message, initial, restriction, onSubmit, onCancel))
    {
      submitModal := SubmitModal(true, message, initial, restriction, onSubmit, onCancel);
    }

    method SetCursorModal(message: string, options: seq<ModalOption>, onOption: Callback,
                          onCancel: Callback, position: Option<Position>, id: Key)
      modifies this
      ensures View() == old(View()).(cursorModal :=
        CursorModal(true, message, options, onOption, onCancel, position, id))
    {
      cursorModal := CursorModal(true, message, options, onOption, onCancel, position, id);
    }

    method SetTitleNContentModal(title: string, content: string, onCancel: Callback)
      modifies this
      ensures View() == old(View()).(titleNContentModal := TitleNContentModal(true, title, content, onCancel))
    {
      titleNContentModal := TitleNContentModal(true, title, content, onCancel);
    }

    method CloseLoadingModal()
      modifies this
      ensures View() == old(View()).(loadingModal := InitialView.loadingModal)
    {
      loadingModal := None;
    }

    /** Each `close…Modal` puts its dialog back to the value it has in the initial state. */
    method CloseRejectModal()
      modifies this
      ensures View() == old(View()).(rejectModal := InitialView.rejectModal)
    {
      rejectModal := RejectModal(false, "", NoOp);
    }

    method CloseConfirmModal()
      modifies this
      ensures View() == old(View()).(confirmModal := InitialView.confirmModal)
    {
      confirmModal := ConfirmModal(false, "", NoOp, NoOp);
    }

    method CloseOptionModal()
      modifies this
      ensures View() == old(View()).(optionModal := InitialView.optionModal)
    {
      optionModal := OptionModal(false, "", [], NoOp, NoOp);
    }

    method CloseSubmitModal()
      modifies this
      ensures View() == old(View()).(submitModal := InitialView.submitModal)
    {
      submitModal := SubmitModal(false, "", SubmitInitial("", ""), None, NoOp, NoOp);
    }

    method CloseCursorModal()
      modifies this
      ensures View() == old(View()).(cursorModal := InitialView.cursorModal)
    {
      cursorModal := CursorModal(false, "", [], NoOp, NoOp, None, KeyText(""));
    }

    method CloseTitleNContentModal()
      modifies this
      ensures View() == old(View()).(titleNContentModal := InitialView.titleNContentModal)
    {
      titleNContentModal := TitleNContentModal(false, "", "", NoOp);
    }

    /** `closeAll`: every field back to its initial value. */
    method CloseAll()
      modifies this
      ensures View() == InitialView
    {
      loginModal := false;
      signupModal := false;
      findPwModal := false;
      findIdModal := false;
      loadingModal := None;
      rejectModal := RejectModal(false, "", NoOp);
      confirmModal := ConfirmModal(false, "", NoOp, NoOp);
      optionModal := OptionModal(false, "", [], NoOp, NoOp);
      submitModal := SubmitModal(false, "", SubmitInitial("", ""), None, NoOp, NoOp);
      cursorModal := CursorModal(false, "", [], NoOp, NoOp, None, KeyText(""));
      titleNContentModal := TitleNContentModal(false, "", "", NoOp);
    }
  }

  /** Opening an account dialog and closing it again: the flag ends off and every other
      field of the slice is where it was. */
  method OpenAndClose(m: ModalSlice, kind: string)
    modifies m
    ensures m.View() == SetFlag(old(m.View()), kind, false)
    ensures IsAccountDialog(kind) && !FlagOf(old(m.View()), kind) ==> m.View() == old(m.View())
  {
    m.OpenModal(kind);
    m.CloseModal(kind);
    OpenThenClose(old(m.View()), kind);
    if !IsAccountDialog(kind) || !FlagOf(old(m.View()), kind) {
      CloseClosed(old(m.View()), kind);
    }
  }

  /** Closing every dialog twice is the same as closing it once. */
  method CloseAllTwice(m: ModalSlice)
    modifies m
    ensures m.View() == InitialView
  {
    m.CloseAll();
    m.CloseAll();
  }

  /** Opening a dialog and then running `closeAll` gives the initial state, whatever was open. */
  method SetThenCloseAll(m: ModalSlice, message: string, onCancel: Callback)
    modifies m
    ensures m.View() == InitialView
  {
    m.SetRejectModal(message, onCancel);
    m.CloseAll();
  }
}
