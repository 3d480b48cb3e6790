/**
 * Start-up creation of the base worksheets (Users, "Общие", CommonProgress)
 * through the bot's own spreadsheet client. Its worksheet and header steps
 * behave as the mirror's, so they are the same definitions; only the list
 * of worksheets differs: no per-user sheets.
 */
module SheetsSchema {
  import opened Sheets
  import opened Config
  import opened MirrorSchema

  /** `ensure_base_structure_sync()` */
  method EnsureBaseStructureSync(ss: Spreadsheet)
    modifies ss
    ensures ss.sheets == EnsureList(old(ss.sheets), Required([]))
  {
    var reqs := Required([]);
    assert reqs == [Requirement(UsersSheet, UsersHeaders), Requirement(CommonSheet, TaskHeaders),
                    Requirement(CommonProgressSheet, CommonProgressHeaders)];
    assert reqs[..0] == [] && reqs[..1][..0] == [] && reqs[..2][..1] == reqs[..1] && reqs[..3][..2] == reqs[..2];
    EnsureWs(ss, UsersSheet);
    EnsureHeaders(ss, UsersSheet, ["Name", "TelegramID"]);
    assert ss.sheets == EnsureList(old(ss.sheets), reqs[..1]);
    EnsureWs(ss, CommonSheet);
    EnsureHeaders(ss, CommonSheet, TaskHeaders);
    assert ss.sheets == EnsureList(old(ss.sheets), reqs[..2]);
    EnsureWs(ss, CommonProgressSheet);
    EnsureHeaders(ss, CommonProgressSheet, CommonProgressHeaders);
    assert reqs[..3] == reqs;
  }

  /**
   * After the start-up setup the three base worksheets exist with their
   * header rows at the top, every other worksheet is as it was, and running
   * the setup again changes nothing.
   */
  lemma BaseStructureReady(sheets: map<string, Grid>)
    ensures var r := EnsureList(sheets, Required([]));
      && UsersSheet in r && CommonSheet in r && CommonProgressSheet in r
      && |r[UsersSheet]| >= 1 && |r[UsersSheet][0]| >= 2 && r[UsersSheet][0][..2] == ["Name", "TelegramID"]
      && |r[CommonSheet]| >= 1 && |r[CommonSheet][0]| >= 6 && r[CommonSheet][0][..6] == TaskHeaders
      && |r[CommonProgressSheet]| >= 1 && |r[CommonProgressSheet][0]| >= 4
      && r[CommonProgressSheet][0][..4] == CommonProgressHeaders
      && (forall n :: n in sheets && n !in [UsersSheet, CommonSheet, CommonProgressSheet] ==> n in r && r[n] == sheets[n])
      && EnsureList(r, Required([])) == r
  {
    var reqs := Required([]);
    EnsureListHeaders(sheets, reqs, 0);
    EnsureListHeaders(sheets, reqs, 1);
    EnsureListHeaders(sheets, reqs, 2);
    EnsureListFrame(sheets, reqs);
    RequiredDistinct([]);
    EnsureListIdempotent(sheets, reqs);
  }
}
