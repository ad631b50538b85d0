/** load_picture and save_negative_picture, on arrays and on the text of a file. */
module PictureFile {
  import opened Decimal
  import opened Pgm
  import opened Threads

  /**
   load_picture: the two pictures that a file may fail to be are those without a first line and those
   with a wrong header.
   */
  method LoadPicture(file: string) returns (ok: bool, image: array2<int>)
    ensures ok == Load(file).Loaded?
    ensures ok ==> image.Length0 == Load(file).picture.height && image.Length1 == Load(file).picture.width
    ensures ok ==> Rows(image) == Load(file).picture.pixels
    ensures fresh(image)
  {
    image := new int[0, 0];
    if file == [] {
      return false, image;
    }
    var rest := AfterLine(file);
    var width, height, getMaxPixel, readImage := 0, 0, false, false;
    while !readImage && rest != []
      invariant !readImage ==> ReadHeader(AfterLine(file), false, 0, 0) == ReadHeader(rest, getMaxPixel, width, height)
      invariant readImage ==> ReadHeader(AfterLine(file), false, 0, 0) == Header(width, height, rest)
      decreases |rest|
    {
      var line := Line(rest);
      ghost var before := rest;
      rest := AfterLine(rest);
      if line[0] == '#' {
      } else if !getMaxPixel {
        var size := SizeFrom(line, width, height);
        width, height := size.0, size.1;
        getMaxPixel := true;
      } else {
        var maxPixel := Assigned(Scan(line), 0);
        if maxPixel != 255 {
          assert ReadHeader(before, true, width, height) == BadHeader;
          return false, image;
        }
        readImage := true;
      }
    }
    assert ReadHeader(AfterLine(file), false, 0, 0) == Header(width, height, rest);
    if width < 0 || height < 0 {
      return false, image;
    }
    ok := true;
    image := new int[height, width];
    ReadImage(image, rest);
  }

  /** The inner loop of load_picture over the pixels. */
  method ReadRow(image: array2<int>, i: int, file: string, last: int) returns (rest: string, pixel: int)
    requires 0 <= i < image.Length0
    modifies image
    ensures forall c | 0 <= c < image.Length1 :: image[i, c] == ReadPixels(file, image.Length1, last).0[c]
    ensures forall r, c | 0 <= r < image.Length0 && 0 <= c < image.Length1 && r != i :: image[r, c] == old(image[r, c])
    ensures rest == ReadPixels(file, image.Length1, last).1 && pixel == ReadPixels(file, image.Length1, last).2
  {
    rest, pixel := file, last;
    for j := 0 to image.Length1
      invariant forall c | 0 <= c < j :: image[i, c] == ReadPixels(file, j, last).0[c]
      invariant forall r, c | 0 <= r < image.Length0 && 0 <= c < image.Length1 && r != i ::
              image[r, c] == old(image[r, c])
      invariant rest == ReadPixels(file, j, last).1 && pixel == ReadPixels(file, j, last).2
    {
      var scanned := Scan(rest);
      pixel := Assigned(scanned, pixel);
      rest := if scanned.Number? then scanned.rest else rest;
      image[i, j] := pixel;
    }
  }

  /** The outer loop. */
  method ReadImage(image: array2<int>, file: string)
    modifies image
    ensures Rows(image) == ReadRows(file, image.Length0, image.Length1, 0).0
  {
    var rest, pixel := file, 0;
    for i := 0 to image.Length0
      invariant forall r, c | 0 <= r < i && 0 <= c < image.Length1 ::
              image[r, c] == ReadRows(file, i, image.Length1, 0).0[r][c]
      invariant rest == ReadRows(file, i, image.Length1, 0).1 && pixel == ReadRows(file, i, image.Length1, 0).2
    {
      rest, pixel := ReadRow(image, i, rest, pixel);
    }
    assert forall r | 0 <= r < image.Length0 :: Rows(image)[r] == ReadRows(file, image.Length0, image.Length1, 0).0[r];
  }

  /** The inner loop of save_negative_picture and the line end behind it. */
  method SaveRow(image: array2<int>, i: nat, before: string) returns (file: string)
    requires i < image.Length0
    ensures file == before + PrintRow(Rows(image)[i])
  {
    ghost var row := Rows(image)[i];
    file := before;
    assert row[0..] == row;
    for j := 0 to image.Length1
      invariant file + PrintRow(row[j..]) == before + PrintRow(row)
    {
      PrintRowSplit(row, j);
      Regroup(file, Print(row[j]) + " ", PrintRow(row[j + 1..]));
      file := file + (Print(image[i, j]) + " ");
    }
    assert row[image.Length1..] == [];
    file := file + "\n";
  }

  /** save_negative_picture */
  method SavePicture(image: array2<int>) returns (file: string)
    ensures file == PrintPicture(Picture(image.Length1, image.Length0, Rows(image))) && file[..3] == "P2\n"
  {
    ghost var rows := Rows(image);
    file := "P2\n";
    file := file + "# Processed picture\n";
    file := file + Print(image.Length1) + " " + Print(image.Length0) + "\n";
    file := file + "255\n";
    ghost var text := PrintPicture(Picture(image.Length1, image.Length0, rows));
    assert rows[0..] == rows && file + PrintRows(rows[0..]) == text;
    for i := 0 to image.Length0
      invariant file + PrintRows(rows[i..]) == text
    {
      PrintRowsSplit(rows, i);
      Regroup(file, PrintRow(rows[i]), PrintRows(rows[i + 1..]));
      file := SaveRow(image, i, file);
    }
    assert rows[image.Length0..] == [];
    PrintsMaximum(Picture(image.Length1, image.Length0, rows));
  }
}
