/**
 * The Vehicles page: the fetched fleet, an add/edit modal whose image URLs
 * travel as one comma-separated text field, edits applied by `_id`, appended
 * new vehicles, and deletion by `_id`. All edits stay local to the page.
 */
module Vehicles {
  import opened Wrappers
  import opened Records
  import Text
  import Seqs

  /**
   * A vehicle as the page holds it: its text fields, and `carImage`, the
   * only list-valued field the page reads (None when the API sent none).
   */
  datatype Vehicle = Vehicle(fields: Record, carImage: Option<seq<string>>)

  /** The text inputs of the modal, each named after the field it edits. */
  const TextKeys: set<string> := {"carName", "model", "year", "pricePerHour", "fuel", "seats", "type", "location", "carType"}

  /** Every input of the modal: the text fields and the image-URL field. */
  const FormKeys: set<string> := TextKeys + {"carImage"}

  /** The blank form `openAddModal` opens with. */
  const EmptyForm: Record := map k | k in FormKeys :: ""

  /** `(vehicle.carImage || []).join(', ')`: the image field of the edit form. */
  function FormatImages(images: Option<seq<string>>): (text: string)
    ensures images.None? || images == Some([]) ==> text == ""
    ensures images.Some? && |images.value| == 1 ==> text == images.value[0]
  {
    Text.Join(images.GetOr([]), ", ")
  }

  /** `pieces.map((url) => url.trim())`. */
  function TrimAll(pieces: seq<string>): (r: seq<string>)
    ensures |r| == |pieces|
    ensures forall i :: 0 <= i < |r| ==> r[i] == Text.Trim(pieces[i])
  {
    seq(|pieces|, i requires 0 <= i < |pieces| => Text.Trim(pieces[i]))
  }

  /**
   * The submitted image list: the empty text gives no image; otherwise the
   * text is split at every comma and each piece trimmed, so every URL comes
   * out comma-free and without edge whitespace.
   */
  function ParseImages(text: string): (urls: seq<string>)
    ensures text == "" ==> urls == []
    ensures text != "" ==> urls == TrimAll(Text.Split(text, ','))
    ensures forall i :: 0 <= i < |urls| ==> ',' !in urls[i] && Text.Trimmed(urls[i])
  {
    if text == "" then [] else TrimAll(Text.Split(text, ','))
  }

  /**
   * Joining comma-free URLs with ", " and splitting at ',' gives back the
   * URLs up to edge whitespace (every piece after the first keeps the
   * blank that followed its comma).
   */
  lemma {:induction false} SplitJoined(urls: seq<string>)
    requires |urls| >= 1
    requires forall i :: 0 <= i < |urls| ==> ',' !in urls[i]
    ensures |Text.Split(Text.Join(urls, ", "), ',')| == |urls|
    ensures forall i :: 0 <= i < |urls| ==>
      Text.Trim(Text.Split(Text.Join(urls, ", "), ',')[i]) == Text.Trim(urls[i])
    decreases |urls|
  {
    if |urls| == 1 {
      assert Text.Join(urls, ", ") == urls[0];
      Text.SplitWhole(urls[0], ',');
    } else {
      SplitJoined(urls[1..]);
      SplitJoinedStep(urls);
      TrimShiftedPieces(urls, Text.Split(Text.Join(urls[1..], ", "), ','));
    }
  }

  /**
   * The pieces of a joined list trim to the URLs: the first piece is the
   * first URL and the others are the tail's pieces, the first behind a blank.
   */
  lemma TrimShiftedPieces(urls: seq<string>, s: seq<string>)
    requires |urls| >= 2 && |s| == |urls| - 1
    requires forall i :: 0 <= i < |s| ==> Text.Trim(s[i]) == Text.Trim(urls[1..][i])
    ensures var r := [urls[0]] + ([[' '] + s[0]] + s[1..]);
      |r| == |urls| && forall i :: 0 <= i < |urls| ==> Text.Trim(r[i]) == Text.Trim(urls[i])
  {
    Text.TrimLeadingSpace(s[0]);
    ShiftedAgree(urls, s, [' '] + s[0], (x: string) => Text.Trim(x));
  }

  /** Position-wise agreement under `f` survives replacing the head of the tail by an equivalent. */
  lemma ShiftedAgree<T, U>(xs: seq<T>, s: seq<T>, first: T, f: T -> U)
    requires |xs| >= 2 && |s| == |xs| - 1
    requires f(first) == f(s[0])
    requires forall i :: 0 <= i < |s| ==> f(s[i]) == f(xs[1..][i])
    ensures var r := [xs[0]] + ([first] + s[1..]);
      |r| == |xs| && forall i :: 0 <= i < |xs| ==> f(r[i]) == f(xs[i])
  {
    var r := [xs[0]] + ([first] + s[1..]);
    forall i | 0 <= i < |xs|
      ensures f(r[i]) == f(xs[i])
    {
      if i == 1 {
        assert xs[1..][0] == xs[1];
      } else if i > 1 {
        assert r[i] == s[i - 1] && xs[1..][i - 1] == xs[i];
      }
    }
  }

  /** One step of the join: the first URL, then the rest's pieces, the first of them after a blank. */
  lemma SplitJoinedStep(urls: seq<string>)
    requires |urls| >= 2 && ',' !in urls[0]
    ensures var s := Text.Split(Text.Join(urls[1..], ", "), ',');
      Text.Split(Text.Join(urls, ", "), ',') == [urls[0]] + ([[' '] + s[0]] + s[1..])
  {
    var joined := Text.Join(urls[1..], ", ");
    assert Text.Join(urls, ", ") == urls[0] + ", " + joined;
    assert urls[0] + ", " + joined == urls[0] + [','] + ([' '] + joined);
    Text.SplitAtSeparator(urls[0], [' '] + joined, ',');
    Text.SplitPrefix([' '], joined, ',');
  }

  /**
   * The image list survives the edit modal unchanged (format on open, parse
   * on submit) exactly when no URL holds a comma or edge whitespace and the
   * list is not the single empty URL, which comes back as no image at all.
   */
  lemma ImagesRoundTrip(urls: seq<string>)
    ensures ParseImages(FormatImages(Some(urls))) == urls <==>
      urls != [""] && forall i :: 0 <= i < |urls| ==> ',' !in urls[i] && Text.Trimmed(urls[i])
  {
    if urls != [""] && forall i :: 0 <= i < |urls| ==> ',' !in urls[i] && Text.Trimmed(urls[i]) {
      if urls != [] {
        CleanImagesRoundTrip(urls);
      }
    }
  }

  /** The round trip for a non-empty list of clean URLs. */
  lemma CleanImagesRoundTrip(urls: seq<string>)
    requires urls != [] && urls != [""]
    requires forall i :: 0 <= i < |urls| ==> ',' !in urls[i] && Text.Trimmed(urls[i])
    ensures ParseImages(FormatImages(Some(urls))) == urls
  {
    var text := Text.Join(urls, ", ");
    JoinedNotEmpty(urls);
    SplitJoined(urls);
    var pieces := Text.Split(text, ',');
    forall i | 0 <= i < |urls|
      ensures Text.Trim(pieces[i]) == urls[i]
    {
      Text.TrimFixesTrimmed(urls[i]);
    }
    assert TrimAll(pieces) == urls;
  }

  /** Only the empty list and the single empty URL join to the empty text. */
  lemma JoinedNotEmpty(urls: seq<string>)
    requires urls != [] && urls != [""]
    ensures Text.Join(urls, ", ") != ""
  {
    if |urls| > 1 {
      assert Text.Join(urls, ", ") == urls[0] + ", " + Text.Join(urls[1..], ", ");
    } else {
      assert urls == [urls[0]];
    }
  }

  /**
   * `{ ...formData, carImage: parsed }`: the form's text fields and the
   * parsed image list.
   */
  function FromForm(form: Record): (data: Vehicle)
    ensures "carImage" !in data.fields
    ensures forall k :: k in form && k != "carImage" ==> k in data.fields && data.fields[k] == form[k]
    ensures data.fields.Keys <= form.Keys
    ensures data.carImage == Some(ParseImages(FieldOr(form, "carImage", "")))
  {
    Vehicle(form - {"carImage"}, Some(ParseImages(FieldOr(form, "carImage", ""))))
  }

  /**
   * `openEditModal`'s form: the vehicle's text fields (a field the vehicle
   * lacks stays unset) and its images joined with ", ".
   */
  function EditForm(v: Vehicle): (form: Record)
    ensures form.Keys <= FormKeys
    ensures forall k :: k in TextKeys ==> (k in form <==> k in v.fields)
    ensures forall k :: k in TextKeys && k in v.fields ==> form[k] == v.fields[k]
    ensures "carImage" in form && form["carImage"] == FormatImages(v.carImage)
  {
    (map k | k in TextKeys && k in v.fields :: v.fields[k])["carImage" := FormatImages(v.carImage)]
  }

  /**
   * `{ ...v, ...newVehicleData }`: the submitted data spread over a vehicle.
   * An absent `carImage` in the data leaves the vehicle's images in place.
   */
  function Overlay(v: Vehicle, data: Vehicle): (r: Vehicle)
    ensures r.fields == Merge(v.fields, data.fields)
    ensures data.carImage.Some? ==> r.carImage == data.carImage
    ensures data.carImage.None? ==> r.carImage == v.carImage
  {
    Vehicle(v.fields + data.fields, if data.carImage.Some? then data.carImage else v.carImage)
  }

  /**
   * The edit, `prev.map((v) => v._id === editingVehicle._id ? { ...v, ...data } : v)`:
   * the vehicles carrying the edited id are overlaid, the others kept, the
   * length unchanged.
   */
  function ApplyEdit(list: seq<Vehicle>, id: Option<string>, data: Vehicle): (r: seq<Vehicle>)
    ensures |r| == |list|
    ensures forall i :: 0 <= i < |list| && IdOf(list[i].fields) == id ==> r[i] == Overlay(list[i], data)
    ensures forall i :: 0 <= i < |list| && IdOf(list[i].fields) != id ==> r[i] == list[i]
  {
    seq(|list|, i requires 0 <= i < |list| => if IdOf(list[i].fields) == id then Overlay(list[i], data) else list[i])
  }

  /**
   * Data from the form carries no `_id`, so an edit keeps every vehicle's id
   * and submitting the same edit twice changes nothing more.
   */
  lemma ApplyEditIdempotent(list: seq<Vehicle>, id: Option<string>, data: Vehicle)
    requires "_id" !in data.fields
    ensures forall i :: 0 <= i < |list| ==> IdOf(ApplyEdit(list, id, data)[i].fields) == IdOf(list[i].fields)
    ensures ApplyEdit(ApplyEdit(list, id, data), id, data) == ApplyEdit(list, id, data)
  {
    var once := ApplyEdit(list, id, data);
    var twice := ApplyEdit(once, id, data);
    forall i | 0 <= i < |list|
      ensures twice[i] == once[i]
    {
      if IdOf(list[i].fields) == id {
        assert once[i].fields == list[i].fields + data.fields;
        assert IdOf(once[i].fields) == id;
        assert list[i].fields + data.fields + data.fields == list[i].fields + data.fields;
      }
    }
  }

  /** The new vehicle `handleSubmit` appends: the data with a fresh `_id` and `createdAt`. */
  function NewVehicle(data: Vehicle, newId: string, createdAt: string): (v: Vehicle)
    ensures IdOf(v.fields) == Some(newId)
    ensures "createdAt" in v.fields && v.fields["createdAt"] == createdAt
    ensures forall k :: k in data.fields && k != "_id" && k != "createdAt" ==> k in v.fields && v.fields[k] == data.fields[k]
    ensures v.fields.Keys == data.fields.Keys + {"_id", "createdAt"}
    ensures v.carImage == data.carImage
  {
    Vehicle(Merge(data.fields, map["_id" := newId, "createdAt" := createdAt]), data.carImage)
  }

  /** `prev.filter((v) => v._id !== id)`. */
  function RemoveVehicle(list: seq<Vehicle>, id: Option<string>): (r: seq<Vehicle>)
    ensures forall v :: v in r <==> v in list && IdOf(v.fields) != id
    ensures forall v :: multiset(r)[v] == if IdOf(v.fields) != id then multiset(list)[v] else 0
  {
    Seqs.Filter(list, (v: Vehicle) => IdOf(v.fields) != id)
  }

  /** Deleting keeps the surviving vehicles in their original order. */
  lemma RemoveVehicleKeepsOrder(list: seq<Vehicle>, id: Option<string>)
    ensures Seqs.Subsequence(RemoveVehicle(list, id), list)
  {
    Seqs.FilterIsSubsequence(list, (v: Vehicle) => IdOf(v.fields) != id);
  }

  /** Deleting a just-added vehicle by its fresh id gives back the fleet before the add. */
  lemma DeleteUndoesAdd(list: seq<Vehicle>, data: Vehicle, newId: string, createdAt: string)
    requires forall i :: 0 <= i < |list| ==> IdOf(list[i].fields) != Some(newId)
    ensures RemoveVehicle(list + [NewVehicle(data, newId, createdAt)], Some(newId)) == list
  {
    var keep := (v: Vehicle) => IdOf(v.fields) != Some(newId);
    var added := NewVehicle(data, newId, createdAt);
    Seqs.FilterAppend(list, [added], keep);
    Seqs.FilterAllPass(list, keep);
    assert Seqs.Filter([added], keep) == [];
    assert list + [] == list;
  }

  /** The state the Vehicles component keeps. */
  class VehiclesPage {
    var vehicles: seq<Vehicle>
    var loading: bool
    var showModal: bool
    var editingVehicle: Option<Vehicle>
    var formData: Record
    var error: bool

    /** The form only ever holds the modal's own inputs. */
    ghost predicate Valid()
      reads this
    {
      formData.Keys <= FormKeys
    }

    constructor ()
      ensures Valid()
      ensures vehicles == [] && loading && !showModal && editingVehicle == None
      ensures formData == EmptyForm && !error
    {
      vehicles := [];
      loading := true;
      showModal := false;
      editingVehicle := None;
      formData := EmptyForm;
      error := false;
    }

    /**
     * The mount effect's `fetchVehicles`: a good response replaces the fleet
     * (an absent `cars` field gives the empty list); a bad one sets the error.
     */
    method FetchVehicles(response: Response<seq<Vehicle>>)
      requires Valid()
      modifies this`vehicles, this`error, this`loading
      ensures Valid()
      ensures response.Ok? ==> vehicles == response.body.GetOr([]) && error == old(error)
      ensures response.Failed? ==> vehicles == old(vehicles) && error
      ensures !loading
    {
      if response.Ok? {
        vehicles := response.body.GetOr([]);
      } else {
        error := true;
      }
      loading := false;
    }

    /** `openAddModal`: no vehicle being edited, a blank form. */
    method OpenAddModal()
      requires Valid()
      modifies this`editingVehicle, this`formData, this`showModal
      ensures Valid()
      ensures editingVehicle == None && formData == EmptyForm && showModal
    {
      editingVehicle := None;
      formData := EmptyForm;
      showModal := true;
    }

    /** `openEditModal(vehicle)`: remember the vehicle and load its fields. */
    method OpenEditModal(vehicle: Vehicle)
      requires Valid()
      modifies this`editingVehicle, this`formData, this`showModal
      ensures Valid()
      ensures editingVehicle == Some(vehicle) && formData == EditForm(vehicle) && showModal
    {
      editingVehicle := Some(vehicle);
      formData := EditForm(vehicle);
      showModal := true;
    }

    /** `closeModal`: hide the modal, keeping the form and the edited vehicle. */
    method CloseModal()
      requires Valid()
      modifies this`showModal
      ensures Valid() && !showModal
    {
      showModal := false;
    }

    /** `handleChange`: one input's value written into the form. */
    method HandleChange(name: string, value: string)
      requires Valid() && name in FormKeys
      modifies this`formData
      ensures Valid()
      ensures formData == Merge(old(formData), map[name := value])
    {
      formData := formData[name := value];
    }

    /**
     * `handleSubmit`: an edit overlays the form on the vehicles sharing the
     * edited vehicle's id; an add appends one new vehicle; the modal closes.
     */
    method HandleSubmit(newId: string, createdAt: string)
      requires Valid()
      modifies this`vehicles, this`showModal
      ensures Valid() && !showModal
      ensures old(editingVehicle).Some? ==>
        vehicles == ApplyEdit(old(vehicles), IdOf(old(editingVehicle).value.fields), FromForm(formData))
      ensures old(editingVehicle).None? ==>
        vehicles == old(vehicles) + [NewVehicle(FromForm(formData), newId, createdAt)]
    {
      var data := FromForm(formData);
      match editingVehicle {
        case Some(editing) =>
          vehicles := ApplyEdit(vehicles, IdOf(editing.fields), data);
        case None =>
          vehicles := vehicles + [NewVehicle(data, newId, createdAt)];
      }
      showModal := false;
    }

    /** `handleDelete(id)`: after confirmation every vehicle carrying `id` is dropped. */
    method HandleDelete(id: Option<string>, confirmed: bool)
      requires Valid()
      modifies this`vehicles
      ensures Valid()
      ensures confirmed ==> vehicles == RemoveVehicle(old(vehicles), id)
      ensures !confirmed ==> vehicles == old(vehicles)
    {
      if confirmed {
        vehicles := RemoveVehicle(vehicles, id);
      }
    }
  }

  /**
   * Submitting from the page never writes an `_id` over an edited vehicle:
   * the form holds the modal's inputs only.
   */
  lemma FormDataHasNoId(form: Record)
    requires form.Keys <= FormKeys
    ensures "_id" !in FromForm(form).fields
  {
    assert "_id" !in FormKeys;
  }
}
