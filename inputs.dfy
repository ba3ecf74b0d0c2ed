/** The values the merging pipeline receives from its callers and collaborators. */
module Inputs {
  import opened Matrices

  /** An input map image. The bookkeeping only ever asks whether it is empty. */
  datatype GridImage = GridImage(rows: nat, cols: nat) {
    /** `cv::Mat::empty()`: the image has no pixels. */
    predicate IsEmpty() {
      rows == 0 || cols == 0
    }
  }

  /** The metadata of an input occupancy grid that the pipeline reads. */
  datatype InputGrid = InputGrid(resolution: real)

  /** A `cv::Rect`: top-left corner and size. */
  datatype Rect = Rect(x: int, y: int, width: int, height: int)

  /** What `GridWarper::warp` produces for one image: the warped image and its bounding rectangle. */
  datatype Warped = Warped(image: GridImage, roi: Rect)

  /** The grid that `GridCompositor::compose` builds from the warped fragments. */
  datatype Composed = Composed(width: nat, height: nat, resolution: real, data: seq<int>) {
    /** One cell value per pixel, row by row. */
    predicate WellSized() {
      |data| == width * height
    }
  }
}
