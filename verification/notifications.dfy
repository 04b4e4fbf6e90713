/**
 * What a user action reports back. The shop shows a transient message with
 * one of four visual treatments; only the treatment is modelled.
 */
module Notifications {

  datatype NoteKind = Success | Error | Warning | Info
}
