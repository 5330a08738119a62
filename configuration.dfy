/**
  The configuration page's state transitions: the access-code guard, the
  list of standard (chuẩn QTKT) options, the two standards' colours and the
  custom keyword colour rules. Database writes become an outcome parameter.
*/
module Configuration {
  import opened Wrappers
  import opened Text
  import opened Sequences

  // ---------------------------------------------------------------------------
  // Data
  // ---------------------------------------------------------------------------

  /** One standard option; `display` is the option's label. */
  datatype ChuanOption = ChuanOption(value: string, display: string)

  /** The two standards that have colours of their own. */
  datatype Standard = ChuanCu | ChuanMoi

  /** Which colour of a pair. */
  datatype ColorField = TextColor | BgColor

  /** A text colour and a background colour; `None` is null, the default colour. */
  datatype ColorPair = ColorPair(textColor: Option<string>, bgColor: Option<string>)

  /** A keyword rule: records whose `field` contains `keyword` get these colours. */
  datatype CustomRule = CustomRule(
    id: string,
    field: string,
    keyword: string,
    textColor: Option<string>,
    bgColor: Option<string>)

  /** The colour settings document; a loaded document may lack its custom rules. */
  datatype ColorRules = ColorRules(chuanCu: ColorPair, chuanMoi: ColorPair, customRules: Option<seq<CustomRule>>)

  /** One edit of a custom rule: the property it sets and the new value. */
  datatype RuleEdit =
    | SetField(field: string)
    | SetKeyword(keyword: string)
    | SetTextColor(color: Option<string>)
    | SetBgColor(color: Option<string>)

  /** The result of an awaited database write. */
  datatype WriteOutcome = Written | Failed(reason: string)

  const InitialRules := ColorRules(ColorPair(None, None), ColorPair(None, None), Some([]))

  const ShortCodeMessage := "❌ Mã mới phải có ít nhất 4 ký tự!"
  const CodeChangedMessage := "✅ Đã đổi mã truy cập thành công!"
  const KeepOneMessage := "❌ Phải giữ ít nhất 1 loại chuẩn QTKT"
  const OptionsSavedMessage := "✅ Đã lưu cấu hình chuẩn QTKT"
  const RulesSavedMessage := "✅ Đã lưu cài đặt màu sắc"

  function ErrorMessage(reason: string): string {
    "❌ Lỗi: " + reason
  }

  // ---------------------------------------------------------------------------
  // Access code
  // ---------------------------------------------------------------------------

  /** `handleChangeCode`'s guard: a new code needs at least four characters. */
  predicate CodeAccepted(code: string) {
    |code| >= 4
  }

  // ---------------------------------------------------------------------------
  // Standard options
  // ---------------------------------------------------------------------------

  /**
    `addChuanQTKT`'s new list: nothing for a blank name, otherwise the
    trimmed name appended as both value and label.
  */
  function AddedOptions(options: seq<ChuanOption>, name: string): (r: Option<seq<ChuanOption>>)
    ensures r.None? <==> IsBlank(name)
    ensures r.Some? ==> |r.value| == |options| + 1 && r.value[..|options|] == options
    ensures r.Some? ==> r.value[|options|] == ChuanOption(Trim(name), Trim(name))
    ensures r.Some? ==> Trim(name) != "" && IsTrimmed(r.value[|options|].value)
  {
    TrimEnds(name);
    if Trim(name) == "" then None
    else
      var trimmed := Trim(name);
      Some(options + [ChuanOption(trimmed, trimmed)])
  }

  /** `updateChuanQTKT`'s new list: every option with the old value becomes the new value and label. */
  function RenamedOptions(options: seq<ChuanOption>, oldValue: string, newValue: string): (r: seq<ChuanOption>)
    ensures |r| == |options|
    ensures forall k :: 0 <= k < |r| && options[k].value == oldValue ==> r[k] == ChuanOption(newValue, newValue)
    ensures forall k :: 0 <= k < |r| && options[k].value != oldValue ==> r[k] == options[k]
  {
    seq(|options|, k requires 0 <= k < |options| =>
      if options[k].value == oldValue then ChuanOption(newValue, newValue) else options[k])
  }

  /** After a rename to a different value no option keeps the old value, and renaming again changes nothing. */
  lemma RenameLeavesNoOld(options: seq<ChuanOption>, oldValue: string, newValue: string)
    ensures oldValue != newValue ==>
      forall k :: 0 <= k < |options| ==> RenamedOptions(options, oldValue, newValue)[k].value != oldValue
    ensures RenamedOptions(RenamedOptions(options, oldValue, newValue), oldValue, newValue)
      == RenamedOptions(options, oldValue, newValue)
  {
  }

  /**
    `deleteChuanQTKT` as written: refused with fewer than two options,
    otherwise every option with the value is removed.
  */
  function DeletedOptionsAsWritten(options: seq<ChuanOption>, value: string): (r: Result<seq<ChuanOption>, string>)
    ensures r.Err? <==> |options| <= 1
    ensures r.Err? ==> r.error == KeepOneMessage
    ensures r.Ok? ==> r.value == Filter(options, (o: ChuanOption) => o.value != value)
  {
    if |options| <= 1 then Err(KeepOneMessage)
    else Ok(Filter(options, (o: ChuanOption) => o.value != value))
  }

  /** Two options sharing a value pass the guard and are both deleted, leaving no option. */
  lemma DeleteCanEmptyTheList()
    ensures var a := ChuanOption("QTKT", "QTKT");
      DeletedOptionsAsWritten([a, a], "QTKT") == Ok([])
  {
    var a := ChuanOption("QTKT", "QTKT");
    var s := [a, a];
    assert s[..1] == [a] && [a][..0] == [];
  }

  /**
    The deletion the guard's message asks for: also refused when it would
    remove every option, so at least one option always remains.
  */
  function DeletedOptions(options: seq<ChuanOption>, value: string): (r: Result<seq<ChuanOption>, string>)
    ensures r.Err? <==> |options| <= 1 || forall k :: 0 <= k < |options| ==> options[k].value == value
    ensures r.Err? ==> r.error == KeepOneMessage
    ensures r.Ok? ==> |r.value| >= 1
    ensures r.Ok? ==> Subseq(r.value, options)
    ensures r.Ok? ==> forall o :: o in r.value <==> o in options && o.value != value
    ensures r.Ok? ==> forall o :: multiset(r.value)[o] == if o.value != value then multiset(options)[o] else 0
  {
    var remaining := Filter(options, (o: ChuanOption) => o.value != value);
    FilterFacts(options, (o: ChuanOption) => o.value != value);
    FilterCount(options, (o: ChuanOption) => o.value != value);
    assert remaining == [] <==> forall k :: 0 <= k < |options| ==> options[k].value == value by {
      if remaining != [] {
        assert remaining[0] in remaining;
      } else {
        forall k | 0 <= k < |options| ensures options[k].value == value {
          assert options[k] in options;
        }
      }
    }
    if |options| <= 1 || remaining == [] then Err(KeepOneMessage)
    else Ok(remaining)
  }

  /** Adding a new name and then deleting it gives back the original list. */
  lemma AddThenDelete(options: seq<ChuanOption>, name: string)
    requires |options| >= 1 && !IsBlank(name)
    requires forall k :: 0 <= k < |options| ==> options[k].value != Trim(name)
    ensures DeletedOptions(AddedOptions(options, name).value, Trim(name)) == Ok(options)
  {
    var t := Trim(name);
    var keep := (o: ChuanOption) => o.value != t;
    FilterAll(options, keep);
    FilterSnoc(options, ChuanOption(t, t), keep);
  }

  // ---------------------------------------------------------------------------
  // Colours of the two standards
  // ---------------------------------------------------------------------------

  function PairOf(rules: ColorRules, std: Standard): ColorPair {
    match std
    case ChuanCu => rules.chuanCu
    case ChuanMoi => rules.chuanMoi
  }

  function ColorOf(rules: ColorRules, std: Standard, field: ColorField): Option<string> {
    var pair := PairOf(rules, std);
    match field
    case TextColor => pair.textColor
    case BgColor => pair.bgColor
  }

  /**
    The settings with one colour of one standard replaced: `updateChuanColor`
    passes the chosen colour, `resetChuanColor` passes null.
  */
  function WithColor(rules: ColorRules, std: Standard, field: ColorField, color: Option<string>): (r: ColorRules)
    ensures ColorOf(r, std, field) == color
    ensures forall s: Standard, f: ColorField :: (s, f) != (std, field) ==> ColorOf(r, s, f) == ColorOf(rules, s, f)
    ensures r.customRules == rules.customRules
  {
    var pair := PairOf(rules, std);
    var pair' := match field
      case TextColor => pair.(textColor := color)
      case BgColor => pair.(bgColor := color);
    match std
    case ChuanCu => rules.(chuanCu := pair')
    case ChuanMoi => rules.(chuanMoi := pair')
  }

  /** Resetting a colour undoes any update of it. */
  lemma ResetUndoesUpdate(rules: ColorRules, std: Standard, field: ColorField, color: string)
    ensures WithColor(WithColor(rules, std, field, Some(color)), std, field, None) == WithColor(rules, std, field, None)
  {
  }

  /** Setting a colour to the value it already has changes nothing. */
  lemma SetSameColor(rules: ColorRules, std: Standard, field: ColorField)
    ensures WithColor(rules, std, field, ColorOf(rules, std, field)) == rules
  {
  }

  // ---------------------------------------------------------------------------
  // Custom rules
  // ---------------------------------------------------------------------------

  /** `colorRules.customRules || []`. */
  function RulesOf(rules: ColorRules): seq<CustomRule> {
    if rules.customRules.Some? then rules.customRules.value else []
  }

  /** The rule `addCustomRule` creates: the specialty field, no keyword, no colours. */
  function NewRule(id: string): CustomRule {
    CustomRule(id, "chuyenkhoa", "", None, None)
  }

  /** `{ ...rule, [field]: value }`: one property set, the rest (the id included) kept. */
  function ApplyEdit(rule: CustomRule, edit: RuleEdit): (r: CustomRule)
    ensures r.id == rule.id
    ensures edit.SetField? ==> r == rule.(field := edit.field)
    ensures edit.SetKeyword? ==> r == rule.(keyword := edit.keyword)
    ensures edit.SetTextColor? ==> r == rule.(textColor := edit.color)
    ensures edit.SetBgColor? ==> r == rule.(bgColor := edit.color)
  {
    match edit
    case SetField(f) => rule.(field := f)
    case SetKeyword(k) => rule.(keyword := k)
    case SetTextColor(c) => rule.(textColor := c)
    case SetBgColor(c) => rule.(bgColor := c)
  }

  /** `addCustomRule`'s settings: the new rule appended after the existing ones. */
  function AppendedRule(rules: ColorRules, id: string): (r: ColorRules)
    ensures RulesOf(r) == RulesOf(rules) + [NewRule(id)]
    ensures r.chuanCu == rules.chuanCu && r.chuanMoi == rules.chuanMoi
  {
    rules.(customRules := Some(RulesOf(rules) + [NewRule(id)]))
  }

  /** `updateCustomRule`'s settings: the edit applied to the rules with the id, the others kept. */
  function EditedRule(rules: ColorRules, id: string, edit: RuleEdit): (r: ColorRules)
    ensures |RulesOf(r)| == |RulesOf(rules)|
    ensures forall k :: 0 <= k < |RulesOf(r)| ==>
      RulesOf(r)[k] == if RulesOf(rules)[k].id == id then ApplyEdit(RulesOf(rules)[k], edit) else RulesOf(rules)[k]
    ensures r.chuanCu == rules.chuanCu && r.chuanMoi == rules.chuanMoi
  {
    var current := RulesOf(rules);
    rules.(customRules := Some(seq(|current|, k requires 0 <= k < |current| =>
      if current[k].id == id then ApplyEdit(current[k], edit) else current[k])))
  }

  /** `deleteCustomRule`'s settings: every rule with the id removed, the rest in order. */
  function RemovedRule(rules: ColorRules, id: string): (r: ColorRules)
    ensures Subseq(RulesOf(r), RulesOf(rules))
    ensures forall x :: x in RulesOf(r) <==> x in RulesOf(rules) && x.id != id
    ensures forall x :: multiset(RulesOf(r))[x] == if x.id != id then multiset(RulesOf(rules))[x] else 0
    ensures r.chuanCu == rules.chuanCu && r.chuanMoi == rules.chuanMoi
  {
    FilterFacts(RulesOf(rules), (x: CustomRule) => x.id != id);
    FilterCount(RulesOf(rules), (x: CustomRule) => x.id != id);
    rules.(customRules := Some(Filter(RulesOf(rules), (x: CustomRule) => x.id != id)))
  }

  /** Editing keeps the ids, so the rule list keeps its identity and order. */
  lemma EditKeepsIds(rules: ColorRules, id: string, edit: RuleEdit)
    ensures forall k :: 0 <= k < |RulesOf(rules)| ==> RulesOf(EditedRule(rules, id, edit))[k].id == RulesOf(rules)[k].id
    ensures (forall k :: 0 <= k < |RulesOf(rules)| ==> RulesOf(rules)[k].id != id) ==>
      RulesOf(EditedRule(rules, id, edit)) == RulesOf(rules)
  {
  }

  /** Removing a rule just added with a fresh id gives back the previous rules. */
  lemma AppendThenRemove(rules: ColorRules, id: string)
    requires forall k :: 0 <= k < |RulesOf(rules)| ==> RulesOf(rules)[k].id != id
    ensures RulesOf(RemovedRule(AppendedRule(rules, id), id)) == RulesOf(rules)
  {
    var keep := (x: CustomRule) => x.id != id;
    FilterAll(RulesOf(rules), keep);
    FilterSnoc(RulesOf(rules), NewRule(id), keep);
  }

  // ---------------------------------------------------------------------------
  // The page's state cells and handlers
  // ---------------------------------------------------------------------------

  class ConfigurationPage {
    var options: seq<ChuanOption>
    var colorRules: ColorRules
    var message: string
    var newCode: string
    var newChuanName: string
    var editingChuan: Option<string>

    constructor(options: seq<ChuanOption>)
      ensures this.options == options && colorRules == InitialRules
      ensures message == "" && newCode == "" && newChuanName == "" && editingChuan == None
    {
      this.options := options;
      colorRules := InitialRules;
      message := "";
      newCode := "";
      newChuanName := "";
      editingChuan := None;
    }

    /**
      `handleChangeCode`: a code that is too short is refused with a message
      and never sent; otherwise the outcome of the update decides the message,
      and success clears the input.
    */
    method HandleChangeCode(outcome: WriteOutcome) returns (attempted: bool)
      modifies this
      ensures attempted <==> CodeAccepted(old(newCode))
      ensures !attempted ==> message == ShortCodeMessage && newCode == old(newCode)
      ensures attempted && outcome.Written? ==> message == CodeChangedMessage && newCode == ""
      ensures attempted && outcome.Failed? ==> message == ErrorMessage(outcome.reason) && newCode == old(newCode)
      ensures options == old(options) && colorRules == old(colorRules)
      ensures newChuanName == old(newChuanName) && editingChuan == old(editingChuan)
    {
      if |newCode| == 0 || |newCode| < 4 {
        message := ShortCodeMessage;
        return false;
      }
      attempted := true;
      match outcome
      case Written =>
        message := CodeChangedMessage;
        newCode := "";
      case Failed(reason) =>
        message := ErrorMessage(reason);
    }

    /** `saveChuanQTKTOptions`: the list is replaced only when the write succeeds. */
    method SaveOptions(newOptions: seq<ChuanOption>, outcome: WriteOutcome)
      modifies this
      ensures outcome.Written? ==> options == newOptions && message == OptionsSavedMessage
      ensures outcome.Failed? ==> options == old(options) && message == ErrorMessage(outcome.reason)
      ensures colorRules == old(colorRules) && newCode == old(newCode)
      ensures newChuanName == old(newChuanName) && editingChuan == old(editingChuan)
    {
      match outcome
      case Written =>
        options := newOptions;
        message := OptionsSavedMessage;
      case Failed(reason) =>
        message := ErrorMessage(reason);
    }

    /** `saveColorRules`: the settings are replaced only when the write succeeds. */
    method SaveRules(newRules: ColorRules, outcome: WriteOutcome)
      modifies this
      ensures outcome.Written? ==> colorRules == newRules && message == RulesSavedMessage
      ensures outcome.Failed? ==> colorRules == old(colorRules) && message == ErrorMessage(outcome.reason)
      ensures options == old(options) && newCode == old(newCode)
      ensures newChuanName == old(newChuanName) && editingChuan == old(editingChuan)
    {
      match outcome
      case Written =>
        colorRules := newRules;
        message := RulesSavedMessage;
      case Failed(reason) =>
        message := ErrorMessage(reason);
    }

    /** `addChuanQTKT`: a blank name does nothing; otherwise the trimmed name is saved and the input cleared. */
    method AddChuan(outcome: WriteOutcome)
      modifies this
      ensures IsBlank(old(newChuanName)) ==>
        options == old(options) && message == old(message) && newChuanName == old(newChuanName)
      ensures !IsBlank(old(newChuanName)) && outcome.Written? ==>
        options == old(options) + [ChuanOption(Trim(old(newChuanName)), Trim(old(newChuanName)))]
      ensures !IsBlank(old(newChuanName)) && outcome.Written? ==> message == OptionsSavedMessage
      ensures !IsBlank(old(newChuanName)) && outcome.Failed? ==>
        options == old(options) && message == ErrorMessage(outcome.reason)
      ensures !IsBlank(old(newChuanName)) ==> newChuanName == ""
      ensures colorRules == old(colorRules) && newCode == old(newCode) && editingChuan == old(editingChuan)
    {
      TrimEnds(newChuanName);
      if Trim(newChuanName) == "" {
        return;
      }
      var trimmed := Trim(newChuanName);
      var newOption := ChuanOption(trimmed, trimmed);
      SaveOptions(options + [newOption], outcome);
      newChuanName := "";
    }

    /** `updateChuanQTKT`: the renamed list is saved and editing ends. */
    method UpdateChuan(oldValue: string, newValue: string, outcome: WriteOutcome)
      modifies this
      ensures outcome.Written? ==>
        options == RenamedOptions(old(options), oldValue, newValue) && message == OptionsSavedMessage
      ensures outcome.Failed? ==> options == old(options) && message == ErrorMessage(outcome.reason)
      ensures editingChuan == None
      ensures colorRules == old(colorRules) && newCode == old(newCode) && newChuanName == old(newChuanName)
    {
      SaveOptions(RenamedOptions(options, oldValue, newValue), outcome);
      editingChuan := None;
    }

    /**
      `deleteChuanQTKT`, with the guard extended so that a deletion that
      would remove every option is refused like one on a single option.
    */
    method DeleteChuan(value: string, outcome: WriteOutcome)
      modifies this
      ensures DeletedOptions(old(options), value).Err? ==> options == old(options) && message == KeepOneMessage
      ensures DeletedOptions(old(options), value).Ok? && outcome.Written? ==>
        options == DeletedOptions(old(options), value).value && message == OptionsSavedMessage
      ensures DeletedOptions(old(options), value).Ok? && outcome.Failed? ==>
        options == old(options) && message == ErrorMessage(outcome.reason)
      ensures outcome.Failed? ==> options == old(options)
      ensures |old(options)| >= 1 ==> |options| >= 1
      ensures colorRules == old(colorRules) && newCode == old(newCode)
      ensures newChuanName == old(newChuanName) && editingChuan == old(editingChuan)
    {
      match DeletedOptions(options, value)
      case Err(refusal) =>
        message := refusal;
      case Ok(remaining) =>
        SaveOptions(remaining, outcome);
    }

    /** `updateChuanColor` and `resetChuanColor` (`color` is `None` for a reset). */
    method SetChuanColor(std: Standard, field: ColorField, color: Option<string>, outcome: WriteOutcome)
      modifies this
      ensures outcome.Written? ==>
        colorRules == WithColor(old(colorRules), std, field, color) && message == RulesSavedMessage
      ensures outcome.Failed? ==> colorRules == old(colorRules) && message == ErrorMessage(outcome.reason)
      ensures options == old(options) && newCode == old(newCode)
      ensures newChuanName == old(newChuanName) && editingChuan == old(editingChuan)
    {
      SaveRules(WithColor(colorRules, std, field, color), outcome);
    }

    /** `addCustomRule`: the new rule is shown at once; it is stored by a later save. */
    method AddCustomRule(id: string)
      modifies this
      ensures colorRules == AppendedRule(old(colorRules), id)
      ensures options == old(options) && message == old(message) && newCode == old(newCode)
      ensures newChuanName == old(newChuanName) && editingChuan == old(editingChuan)
    {
      colorRules := AppendedRule(colorRules, id);
    }

    /** `updateCustomRule`: the edit is shown at once; it is stored by a later save. */
    method UpdateCustomRule(id: string, edit: RuleEdit)
      modifies this
      ensures colorRules == EditedRule(old(colorRules), id, edit)
      ensures options == old(options) && message == old(message) && newCode == old(newCode)
      ensures newChuanName == old(newChuanName) && editingChuan == old(editingChuan)
    {
      colorRules := EditedRule(colorRules, id, edit);
    }

    /** `saveCustomRule`: the current settings are written. */
    method SaveCustomRule(outcome: WriteOutcome)
      modifies this
      ensures colorRules == old(colorRules)
      ensures outcome.Written? ==> message == RulesSavedMessage
      ensures outcome.Failed? ==> message == ErrorMessage(outcome.reason)
      ensures options == old(options) && newCode == old(newCode)
      ensures newChuanName == old(newChuanName) && editingChuan == old(editingChuan)
    {
      SaveRules(colorRules, outcome);
    }

    /** `deleteCustomRule`: the settings without the rule are saved. */
    method DeleteCustomRule(id: string, outcome: WriteOutcome)
      modifies this
      ensures outcome.Written? ==> colorRules == RemovedRule(old(colorRules), id) && message == RulesSavedMessage
      ensures outcome.Failed? ==> colorRules == old(colorRules) && message == ErrorMessage(outcome.reason)
      ensures options == old(options) && newCode == old(newCode)
      ensures newChuanName == old(newChuanName) && editingChuan == old(editingChuan)
    {
      SaveRules(RemovedRule(colorRules, id), outcome);
    }
  }
}
