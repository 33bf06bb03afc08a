/**
 * The safety-profile form: its fields and defaults, the change handler, the
 * required-field validator, the submit gate that persists the profile, and
 * the load step that lays a saved profile over the defaults.
 */
module PersonalInfo {
  import opened Wrappers
  import Text

  /** The text fields of the form (`liveLocationSharing` is its one boolean field). */
  datatype Field =
    | FullName | PrimaryPhone | SecondaryPhone | BloodGroup | Allergies | Medications
    | MedicalNotes | HomeAddress | City | State | PostalCode | Landmark
    | EmergencyContact1 | EmergencyContact1Phone | EmergencyContact1Relation
    | EmergencyContact2 | EmergencyContact2Phone | EmergencyContact2Relation
    | WhatsappNumber | PreferredHospital | SafeWord

  const AllFields: seq<Field> := [
    FullName, PrimaryPhone, SecondaryPhone, BloodGroup, Allergies, Medications,
    MedicalNotes, HomeAddress, City, State, PostalCode, Landmark,
    EmergencyContact1, EmergencyContact1Phone, EmergencyContact1Relation,
    EmergencyContact2, EmergencyContact2Phone, EmergencyContact2Relation,
    WhatsappNumber, PreferredHospital, SafeWord]

  lemma AllFieldsListed(k: Field)
    ensures k in AllFields
  {
  }

  datatype FormState = FormState(
    fullName: string, primaryPhone: string, secondaryPhone: string, bloodGroup: string,
    allergies: string, medications: string, medicalNotes: string, homeAddress: string,
    city: string, state: string, postalCode: string, landmark: string,
    emergencyContact1: string, emergencyContact1Phone: string, emergencyContact1Relation: string,
    emergencyContact2: string, emergencyContact2Phone: string, emergencyContact2Relation: string,
    whatsappNumber: string, preferredHospital: string, liveLocationSharing: bool, safeWord: string)

  /** Every text field empty, live location sharing on. */
  const DefaultState: FormState := FormState(
    "", "", "", "", "", "", "", "", "", "", "", "",
    "", "", "", "", "", "", "", "", true, "")

  /** `form[key]` for a text field. */
  function Get(f: FormState, k: Field): string {
    match k
    case FullName => f.fullName
    case PrimaryPhone => f.primaryPhone
    case SecondaryPhone => f.secondaryPhone
    case BloodGroup => f.bloodGroup
    case Allergies => f.allergies
    case Medications => f.medications
    case MedicalNotes => f.medicalNotes
    case HomeAddress => f.homeAddress
    case City => f.city
    case State => f.state
    case PostalCode => f.postalCode
    case Landmark => f.landmark
    case EmergencyContact1 => f.emergencyContact1
    case EmergencyContact1Phone => f.emergencyContact1Phone
    case EmergencyContact1Relation => f.emergencyContact1Relation
    case EmergencyContact2 => f.emergencyContact2
    case EmergencyContact2Phone => f.emergencyContact2Phone
    case EmergencyContact2Relation => f.emergencyContact2Relation
    case WhatsappNumber => f.whatsappNumber
    case PreferredHospital => f.preferredHospital
    case SafeWord => f.safeWord
  }

  /** Two forms with the same text fields and the same sharing flag are the same form. */
  lemma FormExtensionality(f: FormState, g: FormState)
    requires forall k: Field :: Get(f, k) == Get(g, k)
    requires f.liveLocationSharing == g.liveLocationSharing
    ensures f == g
  {
    assert Get(f, FullName) == Get(g, FullName);
    assert Get(f, PrimaryPhone) == Get(g, PrimaryPhone);
    assert Get(f, SecondaryPhone) == Get(g, SecondaryPhone);
    assert Get(f, BloodGroup) == Get(g, BloodGroup);
    assert Get(f, Allergies) == Get(g, Allergies);
    assert Get(f, Medications) == Get(g, Medications);
    assert Get(f, MedicalNotes) == Get(g, MedicalNotes);
    assert Get(f, HomeAddress) == Get(g, HomeAddress);
    assert Get(f, City) == Get(g, City);
    assert Get(f, State) == Get(g, State);
    assert Get(f, PostalCode) == Get(g, PostalCode);
    assert Get(f, Landmark) == Get(g, Landmark);
    assert Get(f, EmergencyContact1) == Get(g, EmergencyContact1);
    assert Get(f, EmergencyContact1Phone) == Get(g, EmergencyContact1Phone);
    assert Get(f, EmergencyContact1Relation) == Get(g, EmergencyContact1Relation);
    assert Get(f, EmergencyContact2) == Get(g, EmergencyContact2);
    assert Get(f, EmergencyContact2Phone) == Get(g, EmergencyContact2Phone);
    assert Get(f, EmergencyContact2Relation) == Get(g, EmergencyContact2Relation);
    assert Get(f, WhatsappNumber) == Get(g, WhatsappNumber);
    assert Get(f, PreferredHospital) == Get(g, PreferredHospital);
    assert Get(f, SafeWord) == Get(g, SafeWord);
  }

  /** `handleChange(key, value)` for a text field: that field takes the value, nothing else changes. */
  function HandleChange(f: FormState, k: Field, v: string): (r: FormState)
    ensures Get(r, k) == v
    ensures forall other: Field :: other != k ==> Get(r, other) == Get(f, other)
    ensures r.liveLocationSharing == f.liveLocationSharing
  {
    match k
    case FullName => f.(fullName := v)
    case PrimaryPhone => f.(primaryPhone := v)
    case SecondaryPhone => f.(secondaryPhone := v)
    case BloodGroup => f.(bloodGroup := v)
    case Allergies => f.(allergies := v)
    case Medications => f.(medications := v)
    case MedicalNotes => f.(medicalNotes := v)
    case HomeAddress => f.(homeAddress := v)
    case City => f.(city := v)
    case State => f.(state := v)
    case PostalCode => f.(postalCode := v)
    case Landmark => f.(landmark := v)
    case EmergencyContact1 => f.(emergencyContact1 := v)
    case EmergencyContact1Phone => f.(emergencyContact1Phone := v)
    case EmergencyContact1Relation => f.(emergencyContact1Relation := v)
    case EmergencyContact2 => f.(emergencyContact2 := v)
    case EmergencyContact2Phone => f.(emergencyContact2Phone := v)
    case EmergencyContact2Relation => f.(emergencyContact2Relation := v)
    case WhatsappNumber => f.(whatsappNumber := v)
    case PreferredHospital => f.(preferredHospital := v)
    case SafeWord => f.(safeWord := v)
  }

  /** Writing back a field's own value changes nothing. */
  lemma HandleChangeSameValue(f: FormState, k: Field)
    ensures HandleChange(f, k, Get(f, k)) == f
  {
    FormExtensionality(HandleChange(f, k, Get(f, k)), f);
  }

  /** `handleChange('liveLocationSharing', b)`. */
  function HandleSharingChange(f: FormState, b: bool): (r: FormState)
    ensures r.liveLocationSharing == b
    ensures forall k: Field :: Get(r, k) == Get(f, k)
  {
    f.(liveLocationSharing := b)
  }

  /** The fields the form refuses to submit empty. */
  const RequiredFields: set<Field> := {FullName, PrimaryPhone, EmergencyContact1, EmergencyContact1Phone}

  /**
   * `validate`: a "Required" error for each required field that is empty once
   * trimmed, that is, made of white space only.
   */
  function Validate(f: FormState): (errors: set<Field>)
    ensures forall k: Field :: k in errors <==> k in RequiredFields && Text.AllSpace(Get(f, k))
  {
    var errors := set k | k in RequiredFields && Text.Trim(Get(f, k)) == [];
    forall k: Field ensures Text.Trim(Get(f, k)) == [] <==> Text.AllSpace(Get(f, k)) {
      Text.TrimEmptyIff(Get(f, k));
    }
    errors
  }

  /** A saved profile as `JSON.parse` returns it: only the keys it holds. */
  datatype SavedProfile = SavedProfile(text: map<Field, string>, liveLocationSharing: Option<bool>)

  /** The `profileInfo` storage entry. */
  datatype StoredProfile = NoProfile | Unparsable | Saved(profile: SavedProfile)

  /** The browser storage the form touches: `profileInfo` and the `profileComplete` flag. */
  datatype Storage = Storage(profileInfo: StoredProfile, profileComplete: bool)

  /** `JSON.stringify(form)`, parsed back: every field present. */
  function ToSaved(f: FormState): (s: SavedProfile)
    ensures forall k: Field :: k in s.text && s.text[k] == Get(f, k)
    ensures s.liveLocationSharing == Some(f.liveLocationSharing)
  {
    var s := SavedProfile(map k | k in AllFields :: Get(f, k), Some(f.liveLocationSharing));
    forall k: Field ensures k in s.text { AllFieldsListed(k); }
    s
  }

  /**
   * `handleSubmit`: with any validation error nothing is stored; otherwise the
   * form is persisted and the profile marked complete.
   */
  function HandleSubmit(f: FormState, st: Storage): (r: (Storage, set<Field>))
    ensures r.1 == Validate(f)
    ensures |r.1| > 0 ==> r.0 == st
    ensures |r.1| == 0 ==> r.0 == Storage(Saved(ToSaved(f)), true)
  {
    var errors := Validate(f);
    if |errors| > 0 then (st, errors) else (Storage(Saved(ToSaved(f)), true), errors)
  }

  /** `{ ...defaultState, ...saved }`: a saved key overrides the default, a missing one keeps it. */
  function Overlay(saved: SavedProfile): (r: FormState)
    ensures forall k: Field :: Get(r, k) == if k in saved.text then saved.text[k] else Get(DefaultState, k)
    ensures r.liveLocationSharing == saved.liveLocationSharing.GetOr(DefaultState.liveLocationSharing)
  {
    var g := (k: Field) => if k in saved.text then saved.text[k] else "";
    FormState(
      g(FullName), g(PrimaryPhone), g(SecondaryPhone), g(BloodGroup), g(Allergies), g(Medications),
      g(MedicalNotes), g(HomeAddress), g(City), g(State), g(PostalCode), g(Landmark),
      g(EmergencyContact1), g(EmergencyContact1Phone), g(EmergencyContact1Relation),
      g(EmergencyContact2), g(EmergencyContact2Phone), g(EmergencyContact2Relation),
      g(WhatsappNumber), g(PreferredHospital),
      saved.liveLocationSharing.GetOr(DefaultState.liveLocationSharing), g(SafeWord))
  }

  /** The form state after the page loads: the defaults, or the saved profile laid over them. */
  function Load(stored: StoredProfile): (r: FormState)
    ensures !stored.Saved? ==> r == DefaultState
    ensures stored.Saved? ==> r == Overlay(stored.profile)
  {
    match stored
    case Saved(p) => Overlay(p)
    case _ => DefaultState
  }

  /** A submitted profile loads back as exactly the form that was submitted. */
  lemma SubmitThenLoad(f: FormState, st: Storage)
    requires Validate(f) == {}
    ensures Load(HandleSubmit(f, st).0.profileInfo) == f
  {
    var saved := ToSaved(f);
    assert HandleSubmit(f, st).0.profileInfo == Saved(saved);
    var r := Overlay(saved);
    forall k: Field ensures Get(r, k) == Get(f, k) {
      assert k in saved.text && saved.text[k] == Get(f, k);
    }
    FormExtensionality(r, f);
  }
}
