/** Values standing in for the Revit host objects the add-in reads: element ids,
    bounding boxes, the active view's directions and a command's result. */
module Revit {
  import opened Geometry

  /** `ElementId`, by its integer value. */
  type ElementId = int

  /** `ElementId.InvalidElementId`. */
  const InvalidElementId: ElementId := -1

  /** `BoundingBoxXYZ`: the `Min` and `Max` corners. */
  datatype BoundingBox = BoundingBox(min: Vec3, max: Vec3)

  /** The active view's `RightDirection`, `UpDirection` and `ViewDirection`, as
      returned by the host (the host normalises them). */
  datatype View = View(right: Vec3, up: Vec3, viewDirection: Vec3)

  /** Revit's command result. */
  datatype Result = Succeeded | Failed | Cancelled
}
